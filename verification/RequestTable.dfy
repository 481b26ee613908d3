/** The request slots of the io_uring layer: a free list, a bitmap of the slots in
    use, and ids that carry a 32-bit generation. */
module RequestTable {
  import opened Bits

  const SLOTS: nat := 1024
  const WORD: nat := 64
  const U32: nat := 0x1_0000_0000

  datatype SlotState = FREE | PENDING | DONE | FAILED

  /** The slots, field by field; `next` links free slots, counted from one so that
      0 ends the list. */
  datatype Slots = Slots(state: seq<SlotState>, id: seq<nat>, gen: seq<nat>, result: seq<int>, next: seq<nat>)

  predicate Sized(S: Slots) {
    |S.state| == |S.id| == |S.gen| == |S.result| == |S.next| == SLOTS
  }

  /** The generation of the `n`th allocation, counting from 0: the counter skips 0. */
  function Generation(n: nat): (g: nat)
    ensures 0 < g < U32
  {
    n % (U32 - 1) + 1
  }

  function IdOf(gen: nat, slot: nat): nat {
    gen * U32 + slot
  }

  lemma IdParts(gen: nat, slot: nat)
    requires slot < SLOTS
    ensures IdOf(gen, slot) / U32 == gen && IdOf(gen, slot) % U32 == slot
  {
  }

  /** Two allocations get the same generation exactly when the counter has gone
      round between them. */
  lemma GenerationRepeats(a: nat, b: nat)
    requires a <= b
    ensures Generation(a) == Generation(b) <==> (b - a) % (U32 - 1) == 0
    ensures a < b && Generation(a) == Generation(b) ==> b - a >= U32 - 1
  {
  }

  // ---- The free list ----

  predicate FreeList(head: nat, next: seq<nat>, free: seq<nat>) {
    head == (if free == [] then 0 else free[0] + 1) &&
    (forall i, j | 0 <= i < j < |free| :: free[i] != free[j]) && (forall i | 0 <= i < |free| :: free[i] < |next|) &&
    forall i {:trigger next[free[i]]} | 0 <= i < |free| :: next[free[i]] == if i + 1 < |free| then free[i + 1] + 1
      else 0
  }

  lemma FreeListPop(head: nat, next: seq<nat>, free: seq<nat>)
    requires FreeList(head, next, free) && free != []
    ensures head == free[0] + 1 && free[0] < |next| && FreeList(next[free[0]], next, free[1..])
    ensures forall s :: s in free[1..] <==> s in free && s != free[0]
  {
  }

  lemma FreeListPush(head: nat, next: seq<nat>, free: seq<nat>, s: nat)
    requires FreeList(head, next, free) && s < |next| && s !in free
    ensures FreeList(s + 1, next[s := head], [s] + free)
  {
  }

  /** Exactly the free slots are on the list. */
  predicate FreeAre(state: seq<SlotState>, free: seq<nat>) {
    forall s | 0 <= s < |state| :: state[s].FREE? <==> s in free
  }

  // ---- The bitmap ----

  predicate Bitmap(words: seq<seq<bool>>, state: seq<SlotState>) {
    |words| == SLOTS / WORD && (forall w | 0 <= w < |words| :: |words[w]| == WORD) && |state| == SLOTS &&
    forall s | 0 <= s < SLOTS :: words[s / WORD][s % WORD] <==> !state[s].FREE?
  }

  function Marked(words: seq<seq<bool>>, s: nat, inUse: bool): seq<seq<bool>>
    requires |words| == SLOTS / WORD && s < SLOTS && forall w | 0 <= w < |words| :: |words[w]| == WORD
  {
    words[s / WORD := words[s / WORD][s % WORD := inUse]]
  }

  lemma BitmapMark(words: seq<seq<bool>>, state: seq<SlotState>, s: nat, next: SlotState)
    requires Bitmap(words, state) && s < SLOTS
    ensures Bitmap(Marked(words, s, !next.FREE?), state[s := next])
  {
  }

  // ---- Ids ----

  /** `given[n]` is the slot the `n`th allocation got, and `which[s]` the last
      allocation that got slot `s`. */
  ghost predicate Tagged(S: Slots, which: seq<nat>, given: seq<nat>, nextGen: nat) {
    Sized(S) && |which| == SLOTS && nextGen == (if given == [] then 0 else Generation(|given| - 1)) &&
    (forall n | 0 <= n < |given| :: given[n] < SLOTS && n <= which[given[n]]) &&
    forall s | 0 <= s < SLOTS && !S.state[s].FREE? ::
      which[s] < |given| && given[which[s]] == s && S.gen[s] == Generation(which[s]) && S.id[s] == IdOf(S.gen[s], s)
  }

  /** The ids of the requests in the table. */
  ghost function LiveIds(S: Slots): set<nat>
    requires Sized(S)
  {
    set s: nat | s < SLOTS && !S.state[s].FREE? :: S.id[s]
  }

  /** An id finds a request exactly when it is the id of one in the table. */
  lemma LookupExact(S: Slots, which: seq<nat>, given: seq<nat>, nextGen: nat, id: nat)
    requires Tagged(S, which, given, nextGen)
    ensures var s, gen := id % U32, id / U32;
            s < SLOTS && S.gen[s] == gen && !S.state[s].FREE? <==> id in LiveIds(S)
    ensures id in LiveIds(S) ==> S.id[id % U32] == id && id != 0
  {
  }

  /** What the id of the `n`th allocation finds: its own request, or after its
      release whatever was put in the same slot a whole number of turns of the
      counter later, at least 2^32 - 1 allocations, and otherwise nothing. */
  lemma StaleId(S: Slots, which: seq<nat>, given: seq<nat>, nextGen: nat, n: nat)
    requires Tagged(S, which, given, nextGen) && n < |given|
    ensures var s, id := given[n], IdOf(Generation(n), given[n]);
            (id in LiveIds(S) <==> !S.state[s].FREE? && (which[s] - n) % (U32 - 1) == 0) &&
            (id in LiveIds(S) && which[s] != n ==> which[s] - n >= U32 - 1)
  {
    var s := given[n];
    LookupExact(S, which, given, nextGen, IdOf(Generation(n), s));
    IdParts(Generation(n), s);
    GenerationRepeats(n, which[s]);
    hide LiveIds;
  }

  // ---- Allocation and release ----

  function Allocated(S: Slots, s: nat, gen: nat): Slots
    requires Sized(S) && s < SLOTS
  {
    Slots(S.state[s := PENDING], S.id[s := IdOf(gen, s)], S.gen[s := gen], S.result[s := 0], S.next)
  }

  /** The next generation, skipping 0 when the counter wraps. */
  function Bump(gen: nat): nat
    requires gen < U32
  {
    if (gen + 1) % U32 == 0 then 1 else (gen + 1) % U32
  }

  lemma BumpIsNext(n: nat)
    ensures Bump(0) == Generation(0) && Bump(Generation(n)) == Generation(n + 1)
  {
  }

  lemma TaggedAlloc(S: Slots, which: seq<nat>, given: seq<nat>, nextGen: nat, s: nat)
    requires Tagged(S, which, given, nextGen) && s < SLOTS && S.state[s].FREE?
    ensures nextGen < U32 && Tagged(Allocated(S, s, Bump(nextGen)), which[s := |given|], given + [s], Bump(nextGen))
    ensures LiveIds(Allocated(S, s, Bump(nextGen))) == LiveIds(S) + {IdOf(Bump(nextGen), s)}
    ensures IdOf(Bump(nextGen), s) !in LiveIds(S) && IdOf(Bump(nextGen), s) != 0
  {
    if given != [] {
      BumpIsNext(|given| - 1);
    }
    BumpIsNext(0);
    var gen := Bump(nextGen);
    assert gen == Generation(|given|);
    IdParts(gen, s);
    LookupExact(S, which, given, nextGen, IdOf(gen, s));
    LiveIdsAdd(S, s, gen);
  }

  lemma LiveIdsAdd(S: Slots, s: nat, gen: nat)
    requires Sized(S) && s < SLOTS && S.state[s].FREE?
    ensures LiveIds(Allocated(S, s, gen)) == LiveIds(S) + {IdOf(gen, s)}
  {
    var S' := Allocated(S, s, gen);
    forall id | id in LiveIds(S)
      ensures id in LiveIds(S')
    {
      var t: nat :| t < SLOTS && !S.state[t].FREE? && S.id[t] == id;
      assert S'.id[t] == id && !S'.state[t].FREE?;
    }
    assert S'.id[s] == IdOf(gen, s);
  }

  function Released(S: Slots, s: nat, head: nat): Slots
    requires Sized(S) && s < SLOTS
  {
    S.(state := S.state[s := FREE], next := S.next[s := head])
  }

  lemma TaggedRelease(S: Slots, which: seq<nat>, given: seq<nat>, nextGen: nat, s: nat, head: nat)
    requires Tagged(S, which, given, nextGen) && s < SLOTS && !S.state[s].FREE?
    ensures Tagged(Released(S, s, head), which, given, nextGen)
    ensures LiveIds(Released(S, s, head)) == LiveIds(S) - {S.id[s]}
  {
    var S' := Released(S, s, head);
    forall t | 0 <= t < SLOTS && !S.state[t].FREE?
      ensures S.id[t] % U32 == t
    {
      IdParts(S.gen[t], t);
    }
    forall id | id in LiveIds(S) && id != S.id[s]
      ensures id in LiveIds(S')
    {
      var t: nat :| t < SLOTS && !S.state[t].FREE? && S.id[t] == id;
      assert S'.id[t] == id && !S'.state[t].FREE?;
    }
    forall id | id in LiveIds(S')
      ensures id in LiveIds(S) && id != S.id[s]
    {
      var t: nat :| t < SLOTS && !S'.state[t].FREE? && S'.id[t] == id;
      assert t != s && S.id[t] == id;
    }
  }

  /** A table with all slots free, on one list. */
  lemma AllFree(state: seq<SlotState>, next: seq<nat>, free: seq<nat>, words: seq<seq<bool>>)
    requires |state| == |next| == |free| == SLOTS && |words| == SLOTS / WORD
    requires forall s | 0 <= s < SLOTS ::
               state[s].FREE? && next[s] == (if s + 2 <= SLOTS then s + 2 else 0) && free[s] == s
    requires forall w | 0 <= w < |words| :: |words[w]| == WORD && forall b | 0 <= b < WORD :: !words[w][b]
    ensures FreeList(1, next, free) && FreeAre(state, free) && Bitmap(words, state)
  {
    AllListed(next, free);
    AllOnList(state, free);
    AllUnmarked(state, words);
    hide *;
  }

  lemma AllListed(next: seq<nat>, free: seq<nat>)
    requires |next| == |free| == SLOTS
    requires forall s | 0 <= s < SLOTS :: next[s] == (if s + 2 <= SLOTS then s + 2 else 0) && free[s] == s
    ensures FreeList(1, next, free)
  {
  }

  lemma AllOnList(state: seq<SlotState>, free: seq<nat>)
    requires |state| == |free| == SLOTS && forall s | 0 <= s < SLOTS :: state[s].FREE? && free[s] == s
    ensures FreeAre(state, free)
  {
    forall s | 0 <= s < SLOTS
      ensures s in free
    {
      assert free[s] == s;
    }
  }

  lemma AllUnmarked(state: seq<SlotState>, words: seq<seq<bool>>)
    requires |state| == SLOTS && |words| == SLOTS / WORD && forall s | 0 <= s < SLOTS :: state[s].FREE?
    requires forall w | 0 <= w < |words| :: |words[w]| == WORD && forall b | 0 <= b < WORD :: !words[w][b]
    ensures Bitmap(words, state)
  {
  }

  lemma NoneGiven(S: Slots, which: seq<nat>)
    requires Sized(S) && |which| == SLOTS && forall s | 0 <= s < SLOTS :: S.state[s].FREE?
    ensures Tagged(S, which, [], 0) && LiveIds(S) == {}
  {
  }

  class RequestTable {
    var slots: Slots
    var freeHead: nat
    var words: seq<seq<bool>>
    var nextGen: nat
    ghost var free: seq<nat>
    ghost var which: seq<nat>
    ghost var given: seq<nat>

    ghost predicate Valid()
      reads this
    {
      Tagged(slots, which, given, nextGen) && FreeList(freeHead, slots.next, free) && FreeAre(slots.state, free) &&
      Bitmap(words, slots.state)
    }

    constructor ()
      ensures Valid() && LiveIds(slots) == {} && given == []
    {
      hide Tagged, FreeList, FreeAre, Bitmap, LiveIds;
      var empty := Slots(seq(SLOTS, _ => FREE), seq(SLOTS, _ => 0), seq(SLOTS, _ => 0), seq(SLOTS, _ => 0),
                          seq(SLOTS, i requires 0 <= i < SLOTS => if i + 2 <= SLOTS then i + 2 else 0));
      var clear := seq(SLOTS / WORD, _ => seq(WORD, _ => false));
      ghost var all: seq<nat>, never: seq<nat> := seq(SLOTS, i => i), seq(SLOTS, _ => 0);
      AllFree(empty.state, empty.next, all, clear);
      NoneGiven(empty, never);
      slots, freeHead, nextGen, words := empty, 1, 0, clear;
      free, which, given := all, never, [];
    }

    /** A slot for a new request, with an id no request in the table has; none when
        every slot is in use. */
    method Alloc() returns (found: bool, slot: nat)
      requires Valid()
      modifies this
      ensures Valid() && (found <==> exists s | 0 <= s < SLOTS :: old(slots).state[s].FREE?)
      ensures !found ==> slots == old(slots) && given == old(given) && which == old(which)
      ensures found ==>
                slot < SLOTS && old(slots).state[slot].FREE? && slots == Allocated(old(slots), slot, nextGen) &&
                LiveIds(slots) == LiveIds(old(slots)) + {slots.id[slot]} && slots.id[slot] !in LiveIds(old(slots)) &&
                slots.id[slot] != 0 && given == old(given) + [slot] && which == old(which)[slot := |old(given)|]
    {
      if freeHead == 0 {
        return false, 0;
      }
      FreeListPop(freeHead, slots.next, free);
      slot := freeHead - 1;
      assert slot in free && slots.state[slot].FREE?;
      TaggedAlloc(slots, which, given, nextGen, slot);
      BitmapMark(words, slots.state, slot, PENDING);
      hide Tagged, FreeList, Bitmap, LiveIds;
      found, freeHead := true, slots.next[slot];
      nextGen := Bump(nextGen);
      slots, words := Allocated(slots, slot, nextGen), Marked(words, slot, true);
      which, given, free := which[slot := |given|], given + [slot], free[1..];
    }

    /** The request with this id; one that has been released is not found. */
    method Lookup(id: nat) returns (found: bool, slot: nat)
      requires Valid()
      ensures found <==> id in LiveIds(slots)
      ensures found ==> slot == id % U32 < SLOTS && !slots.state[slot].FREE? && slots.id[slot] == id
    {
      LookupExact(slots, which, given, nextGen, id);
      hide LiveIds;
      slot := id % U32;
      var gen := id / U32;
      if slot >= SLOTS {
        return false, 0;
      }
      if slots.gen[slot] != gen || slots.state[slot].FREE? {
        return false, 0;
      }
      found := true;
    }

    method ReleaseSlot(slot: nat)
      requires Valid() && slot < SLOTS && !slots.state[slot].FREE?
      modifies this
      ensures Valid() && slots == Released(old(slots), slot, old(freeHead)) && given == old(given) &&
              which == old(which)
      ensures LiveIds(slots) == LiveIds(old(slots)) - {old(slots).id[slot]}
    {
      TaggedRelease(slots, which, given, nextGen, slot, freeHead);
      FreeListPush(freeHead, slots.next, free, slot);
      BitmapMark(words, slots.state, slot, FREE);
      hide Tagged, FreeList, Bitmap, LiveIds;
      slots, words, freeHead := Released(slots, slot, freeHead), Marked(words, slot, false), slot + 1;
      free := [slot] + free;
    }

    /** The kernel's answer: the request has its result and is done or failed. */
    method Settle(slot: nat, result: int)
      requires Valid() && slot < SLOTS && slots.state[slot].PENDING?
      modifies this`slots
      ensures Valid() && LiveIds(slots) == LiveIds(old(slots))
      ensures slots == old(slots).(state := old(slots).state[slot := if result < 0 then FAILED else DONE],
                                   result := old(slots).result[slot := result])
    {
      var state := if result < 0 then FAILED else DONE;
      BitmapMark(words, slots.state, slot, state);
      assert words[slot / WORD][slot % WORD := true] == words[slot / WORD];
      assert Marked(words, slot, true) == words;
      SettleIds(slots, slot, state, result);
      hide Bitmap, LiveIds;
      slots := slots.(state := slots.state[slot := state], result := slots.result[slot := result]);
    }
  }

  lemma SettleIds(S: Slots, slot: nat, state: SlotState, result: int)
    requires Sized(S) && slot < SLOTS && !S.state[slot].FREE? && !state.FREE?
    ensures LiveIds(S.(state := S.state[slot := state], result := S.result[slot := result])) == LiveIds(S)
  {
  }
}
