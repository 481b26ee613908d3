/** The bump arena behind the framework's allocations, in 64-bit arithmetic. */
module Arena {
  import opened Bits

  const NORMAL_BLOCK: nat := 65536
  const MAX_ALIGN: nat := 4096
  /** The size of a block's header, a pointer. */
  const HEADER: nat := 8
  const WORD: nat := 0x1_0000_0000_0000_0000
  /** Where user memory ends. */
  const LIMIT: nat := 0x8000_0000_0000

  /** The bytes from `lo` up to `hi`. */
  datatype Range = Range(lo: nat, hi: nat)

  predicate Apart(a: Range, b: Range) {
    a.hi <= b.lo || b.hi <= a.lo
  }

  predicate AllApart(s: seq<Range>) {
    forall i, j | 0 <= i < j < |s| :: Apart(s[i], s[j])
  }

  // ---- Rounding up ----

  function Add(a: nat, b: nat): (r: nat)
    ensures r < WORD
  {
    (a + b) % WORD
  }

  function Sub(a: nat, b: nat): (r: nat)
    requires a < WORD && b < WORD
    ensures r < WORD
  {
    (a - b + WORD) % WORD
  }

  /** (base + align - 1) & ~(align - 1), in 64 bits. */
  function RoundUp(base: nat, align: nat): nat
    requires 0 < align < WORD
  {
    BitAnd(Sub(Add(base, align), 1), WORD - 1 - (align - 1))
  }

  lemma WordIsPow2()
    ensures Pow2(64) == WORD
  {
    assert Pow2(8) == 256;
    Pow2Add(8, 8);
    Pow2Add(16, 16);
    Pow2Add(32, 32);
  }

  /** For a power of two the mask gives the first multiple of it from `base`. */
  lemma RoundUpExact(base: nat, align: nat)
    requires IsPow2(align) && align < WORD && base + align <= WORD
    ensures 0 < align && var r := RoundUp(base, align); Rem(r, align) == 0 && base <= r < base + align
  {
    var k: nat :| align == Pow2(k);
    RoundUpAt(base, align, k);
  }

  lemma RoundUpAt(base: nat, align: nat, k: nat)
    requires align == Pow2(k) && 0 < align < WORD && base + align <= WORD
    ensures var r := RoundUp(base, align); Rem(r, align) == 0 && base <= r < base + align
  {
    hide *;
    SmallExponent(k);
    SubAdd(base, align);
    MaskRounds(base + align - 1, k, align);
    RoundsDown(base + align - 1, align);
  }

  lemma SmallExponent(k: nat)
    requires Pow2(k) < WORD
    ensures k <= 64
  {
    hide Pow2;
    WordIsPow2();
    if k > 64 {
      Pow2Strict(64, k);
    }
  }

  /** Masking the low bits off takes the remainder away. */
  lemma MaskRounds(x: nat, k: nat, align: nat)
    requires x < WORD && k <= 64 && align == Pow2(k) && 0 < align < WORD
    ensures BitAnd(x, WORD - 1 - (align - 1)) == x - Rem(x, align)
  {
    hide BitAnd, Pow2, Rem;
    WordIsPow2();
    AndHigh(x, k, 64);
  }

  lemma Pow2Strict(k: nat, n: nat)
    requires k < n
    ensures Pow2(k) < Pow2(n)
  {
  }

  lemma SubAdd(base: nat, align: nat)
    requires 0 < align && base + align <= WORD
    ensures Sub(Add(base, align), 1) == base + align - 1
    ensures align < WORD ==> RoundUp(base, align) == BitAnd(base + align - 1, WORD - 1 - (align - 1))
  {
  }

  lemma RoundsDown(x: nat, d: nat)
    requires d > 0
    ensures Rem(x, d) < d && Rem(x, d) <= x && Rem(x - Rem(x, d), d) == 0
  {
    var q := x / d;
    assert x == q * d + x % d;
    RemainderUnique((x - x % d) / d, (x - x % d) % d, q, 0, d);
  }

  // ---- The arena ----

  /** What the collector's allocator can return: aligned memory apart from every
      earlier block. */
  predicate FreshBlock(blocks: seq<Range>, base: nat, align: nat, bytes: nat)
    requires align > 0
  {
    0 < base && Rem(base, align) == 0 && base + bytes <= LIMIT &&
    forall i | 0 <= i < |blocks| :: Apart(blocks[i], Range(base, base + bytes))
  }

  predicate Inside(r: Range, b: Range) {
    b.lo + HEADER <= r.lo && r.hi <= b.hi
  }

  predicate SomeBlock(blocks: seq<Range>, r: Range) {
    exists i :: 0 <= i < |blocks| && Inside(r, blocks[i])
  }

  /** The blocks are apart; the free rest of the current one is inside it, and
      everything given is inside some block, apart from that rest and from
      everything else given. */
  ghost predicate Sound(blocks: seq<Range>, cur: nat, end: nat, given: seq<Range>) {
    AllApart(blocks) && (forall i | 0 <= i < |blocks| :: 0 < blocks[i].lo <= blocks[i].hi <= LIMIT) &&
    (if cur == 0 then end == 0 else cur <= end && SomeBlock(blocks, Range(cur, end))) &&
    AllApart(given) &&
    forall g | g in given :: g.lo < g.hi && SomeBlock(blocks, g) && (cur != 0 ==> Apart(g, Range(cur, end)))
  }

  /** A new block is apart from everything given. */
  lemma SoundChain(blocks: seq<Range>, cur: nat, end: nat, given: seq<Range>, b: Range)
    requires Sound(blocks, cur, end, given) && 0 < b.lo <= b.hi <= LIMIT
    requires forall i | 0 <= i < |blocks| :: Apart(blocks[i], b)
    ensures Sound([b] + blocks, cur, end, given)
    ensures forall g | g in given :: Apart(g, b)
  {
    var blocks' := [b] + blocks;
    assert forall i | 0 < i < |blocks'| :: blocks'[i] == blocks[i - 1];
    forall r | SomeBlock(blocks, r)
      ensures SomeBlock(blocks', r)
    {
      var i :| 0 <= i < |blocks| && Inside(r, blocks[i]);
      assert Inside(r, blocks'[i + 1]);
    }
    forall g | g in given
      ensures Apart(g, b)
    {
      var i :| 0 <= i < |blocks| && Inside(g, blocks[i]);
    }
  }

  /** Bumping within the rest of the current block. */
  lemma SoundBump(blocks: seq<Range>, cur: nat, end: nat, given: seq<Range>, p: nat, size: nat)
    requires Sound(blocks, cur, end, given) && cur != 0 && cur <= p && 0 < size && p + size <= end
    ensures Sound(blocks, p + size, end, given + [Range(p, p + size)])
  {
  }

  lemma AddApart(given: seq<Range>, r: Range, within: Range)
    requires AllApart(given) && within.lo <= r.lo < r.hi <= within.hi
    requires forall g | g in given :: Apart(g, within) && g.lo < g.hi
    ensures AllApart(given + [r])
  {
  }

  /** The fresh block's payload becomes the current rest. */
  lemma SoundCurrent(blocks: seq<Range>, cur: nat, end: nat, given: seq<Range>, b: Range)
    requires Sound(blocks, cur, end, given) && blocks != [] && blocks[0] == b && b.lo + HEADER <= b.hi
    requires forall g | g in given :: Apart(g, b)
    ensures Sound(blocks, b.lo + HEADER, b.hi, given)
  {
  }

  /** A range in a fresh block of its own. */
  lemma SoundDedicated(blocks: seq<Range>, cur: nat, end: nat, given: seq<Range>, b: Range, r: Range)
    requires Sound(blocks, cur, end, given) && blocks != [] && blocks[0] == b && Inside(r, b) && r.lo < r.hi
    requires forall g | g in given :: Apart(g, b)
    requires cur != 0 ==> Apart(b, Range(cur, end))
    ensures Sound(blocks, cur, end, given + [r])
  {
    assert Inside(r, blocks[0]);
    AddApart(given, r, b);
  }

  /** What is asked for, after the defaults. */
  function AtLeastOne(n: nat): nat {
    if n == 0 then 1 else n
  }

  /** The sizes that do not wrap around on the way. */
  predicate NoWrap(size: nat, align: nat) {
    HEADER + AtLeastOne(size) + AtLeastOne(align) < WORD
  }

  class Arena {
    var blocks: seq<Range>
    var cur: nat
    var end: nat
    ghost var given: seq<Range>
    /** How often the collector had no memory. */
    ghost var refusals: nat

    ghost predicate Valid()
      reads this
    {
      Sound(blocks, cur, end, given)
    }

    constructor ()
      ensures Valid() && given == []
    {
      blocks, cur, end, given, refusals := [], 0, 0, [], 0;
    }

    /** The collector's allocator; 0 when there is no memory. */
    method Zgc(align: nat, bytes: nat) returns (base: nat)
      requires align > 0
      modifies this`refusals
      ensures base != 0 ==> FreshBlock(blocks, base, align, bytes) && refusals == old(refusals)
      ensures base == 0 ==> refusals == old(refusals) + 1
    {
      base := *;
      if !FreshBlock(blocks, base, align, bytes) {
        base := 0;
      }
      if base == 0 {
        refusals := refusals + 1;
      }
    }

    /** A new block of the normal size becomes the current one. */
    method ChainNormal() returns (ok: bool)
      requires Valid()
      modifies this`blocks, this`cur, this`end, this`refusals
      ensures Valid() && (ok <==> refusals == old(refusals)) && refusals >= old(refusals)
      ensures !ok ==> cur == old(cur) && end == old(end) && blocks == old(blocks)
      ensures ok ==> blocks != [] && cur == blocks[0].lo + HEADER && end == blocks[0].hi == cur + NORMAL_BLOCK <= LIMIT
    {
      var b := Zgc(MAX_ALIGN, HEADER + NORMAL_BLOCK);
      if b == 0 {
        return false;
      }
      var block := Range(b, b + HEADER + NORMAL_BLOCK);
      SoundChain(blocks, cur, end, given, block);
      SoundCurrent([block] + blocks, cur, end, given, block);
      hide Sound;
      blocks := [block] + blocks;
      cur := b + HEADER;
      end := cur + NORMAL_BLOCK;
      ok := true;
    }

    /** A block for one request. Its size wraps when the request is too large. */
    method Dedicated(size: nat, align: nat) returns (p: nat)
      requires Valid() && 0 < size < WORD && IsPow2(align) && align < WORD
      modifies this`blocks, this`given, this`refusals
      ensures p == 0 ==> refusals > old(refusals)
      ensures p != 0 ==> blocks != [] && Rem(p, align) == 0 && blocks[0].lo + HEADER <= p
      ensures p != 0 ==> (p + size <= blocks[0].hi <==> HEADER + size + align < WORD)
      ensures HEADER + size + align < WORD ==>
                Valid() && given == if p == 0 then old(given) else old(given) + [Range(p, p + size)]
    {
      var bytes := Add(Add(HEADER, size), align);
      var b := Zgc(align, bytes);
      if b == 0 {
        return 0;
      }
      BytesWrap(size, align);
      AlignFits(b, align);
      var block := Range(b, b + bytes);
      RoundUpExact(b + HEADER, align);
      p := RoundUp(b + HEADER, align);
      SoundChain(blocks, cur, end, given, block);
      CurrentApart(blocks, cur, end, given, block);
      hide *;
      blocks := [block] + blocks;
      if p + size <= block.hi {
        SoundDedicated(blocks, cur, end, given, block, Range(p, p + size));
        given := given + [Range(p, p + size)];
      }
    }

    /** An allocation. The result is aligned; it is inside its block exactly when
        the sizes did not wrap, and then apart from everything given before. */
    method Alloc(size: nat, align: nat) returns (p: nat, ghost from: Range)
      requires Valid() && size < WORD && align < WORD
      modifies this
      ensures p != 0 ==> IsPow2(AtLeastOne(align)) && Rem(p, AtLeastOne(align)) == 0 && from in blocks
      ensures p != 0 ==> (Inside(Range(p, p + AtLeastOne(size)), from) <==> NoWrap(size, align))
      ensures NoWrap(size, align) ==> Valid() && given == if p == 0 then old(given)
              else old(given) + [Range(p, p + AtLeastOne(size))]
      ensures !IsPow2(AtLeastOne(align)) ==> p == 0 && Valid() && blocks == old(blocks)
      ensures size > 0 && align > 0 && p != 0 ==>
                IsPow2(align) && p % align == 0 &&
                (from.lo + HEADER <= p && p + size <= from.hi <==> HEADER + size + align < WORD)
      ensures size > 0 && align > 0 && p != 0 && HEADER + size + align < WORD ==>
                given == old(given) + [Range(p, p + size)] &&
                forall i | 0 <= i < |old(given)| :: old(given)[i].hi <= p || p + size <= old(given)[i].lo
      ensures size > 0 && align > 0 && !IsPow2(align) ==> p == 0
      ensures size > 0 && align > 0 && p == 0 ==> !IsPow2(align) || refusals > old(refusals)
    {
      hide Rem, Sound, Add;
      var size', align' := AtLeastOne(size), AtLeastOne(align);
      from := Range(0, 0);
      PowerTest(align');
      if BitAnd(align', align' - 1) != 0 {
        return 0, from;
      }
      hide BitAnd, IsPow2;
      if align' > MAX_ALIGN || Add(size', align') > NORMAL_BLOCK {
        p := Dedicated(size', align');
        if p != 0 {
          from := blocks[0];
        }
      } else {
        p, from := Bump(size', align');
      }
      RemIs(p, align');
      if p != 0 && NoWrap(size, align) {
        NewestApart(old(given), Range(p, p + size'));
      }
    }

    lemma NewestApart(was: seq<Range>, r: Range)
      requires Valid() && given == was + [r]
      ensures forall i | 0 <= i < |was| :: was[i].hi <= r.lo || r.hi <= was[i].lo
    {
      forall i | 0 <= i < |was|
        ensures was[i].hi <= r.lo || r.hi <= was[i].lo
      {
        assert given[|was|] == r && given[i] == was[i] && Apart(given[i], given[|was|]);
      }
    }

    /** The bump pointer moves on, in a new block if the current one is too full;
        in a new block the request always fits. */
    method Bump(size: nat, align: nat) returns (p: nat, ghost from: Range)
      requires Valid() && 0 < size < WORD && IsPow2(align) && align <= MAX_ALIGN && Add(size, align) <= NORMAL_BLOCK
      modifies this
      ensures p == 0 ==> refusals > old(refusals)
      ensures old(cur) != 0 && Add(RoundUp(old(cur), align), size) <= old(end) ==> blocks == old(blocks) && p != 0
      ensures p != 0 ==> Rem(p, align) == 0 && from in blocks
      ensures p != 0 ==> (Inside(Range(p, p + size), from) <==> HEADER + size + align < WORD)
      ensures HEADER + size + align < WORD ==>
                Valid() && given == if p == 0 then old(given) else old(given) + [Range(p, p + size)]
    {
      hide Sound, RoundUp, Rem, Apart, AllApart;
      from := Range(0, 0);
      BumpWrap(size, align);
      CurrentBlock(blocks, cur, end, given);
      RoundUpExact(cur, align);
      p := RoundUp(cur, align);
      if cur == 0 || Add(p, size) > end {
        var ok := ChainNormal();
        if !ok {
          return 0, from;
        }
        CurrentBlock(blocks, cur, end, given);
        RoundUpExact(cur, align);
        p := RoundUp(cur, align);
        AddSmall(p, size, align);
        assert HEADER + size + align < WORD ==> Add(p, size) <= end;
      }
      from := CurrentIs(blocks, cur, end, given);
      AddSmall(p, size, align);
      if HEADER + size + align < WORD {
        SoundBump(blocks, cur, end, given, p, size);
        given := given + [Range(p, p + size)];
      }
      cur := Add(p, size);
    }
  }

  lemma RemIs(x: nat, d: nat)
    requires d > 0
    ensures Rem(x, d) == x % d
  {
  }

  lemma BytesWrap(size: nat, align: nat)
    requires size < WORD && align < WORD
    ensures HEADER + size + align < WORD ==> Add(Add(HEADER, size), align) == HEADER + size + align
    ensures HEADER + size + align >= WORD ==> Add(Add(HEADER, size), align) < HEADER + size
  {
  }

  /** Memory that starts at a multiple of the alignment leaves room to round up. */
  lemma AlignFits(b: nat, align: nat)
    requires align > 0 && 0 < b <= LIMIT && Rem(b, align) == 0
    ensures align <= b && b + HEADER + align <= WORD
  {
    hide Rem;
    if b < align {
      RemSmall(b, align);
    }
  }

  lemma CurrentApart(blocks: seq<Range>, cur: nat, end: nat, given: seq<Range>, b: Range)
    requires Sound(blocks, cur, end, given) && forall i | 0 <= i < |blocks| :: Apart(blocks[i], b)
    ensures cur != 0 ==> Apart(b, Range(cur, end))
  {
  }

  lemma CurrentBlock(blocks: seq<Range>, cur: nat, end: nat, given: seq<Range>)
    requires Sound(blocks, cur, end, given)
    ensures cur <= end <= LIMIT
  {
  }

  lemma CurrentIs(blocks: seq<Range>, cur: nat, end: nat, given: seq<Range>) returns (b: Range)
    requires Sound(blocks, cur, end, given) && cur != 0
    ensures b in blocks && Inside(Range(cur, end), b) && b.hi <= LIMIT
  {
    var i :| 0 <= i < |blocks| && Inside(Range(cur, end), blocks[i]);
    b := blocks[i];
  }

  /** A bump request either does not wrap and is small, or is larger than any
      block. */
  lemma BumpWrap(size: nat, align: nat)
    requires 0 < size < WORD && 0 < align <= MAX_ALIGN && Add(size, align) <= NORMAL_BLOCK
    ensures if HEADER + size + align < WORD then size + align <= NORMAL_BLOCK else size > LIMIT
  {
  }

  lemma AddSmall(p: nat, size: nat, align: nat)
    requires size < WORD && p <= LIMIT + MAX_ALIGN
    ensures size + align <= NORMAL_BLOCK ==> Add(p, size) == p + size
  {
  }

  /** A request that wraps: the largest size there is looks small enough for the
      current block, which it overruns by almost the whole address space. */
  lemma WrapOverruns(cur: nat, end: nat)
    requires 0 < cur <= end <= LIMIT
    ensures !NoWrap(WORD - 1, 1) && Add(WORD - 1, 1) <= NORMAL_BLOCK && RoundUp(cur, 1) == cur &&
            Add(cur, WORD - 1) <= end
    ensures cur + (WORD - 1) > end + LIMIT
  {
    assert Pow2(0) == 1;
    hide Pow2, BitAnd;
    RoundUpAt(cur, 1, 0);
  }
}
