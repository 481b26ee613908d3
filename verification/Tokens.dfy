/** Tokens: calls tagged with one are ordered as readers and writers of it, by a
    queue of at most sixteen unfinished ones. */
module Tokens {
  import opened RequestTable
  import opened RequestLog
  import opened Rings

  const QLEN: nat := 16

  datatype Kind = IN | OUT | INOUT

  predicate Conflicts(a: Kind, b: Kind) {
    a == OUT || a == INOUT || b == OUT || b == INOUT
  }

  datatype Entry = Entry(id: nat, kind: Kind)

  function IdOfCall(given: seq<nat>, c: nat): nat
    requires c < |given|
  {
    IdOf(Generation(c), given[c])
  }

  /** Calls finish, and never start again. */
  predicate OnlyFinish(C: Calls, C': Calls) {
    C.given <= C'.given && forall c | 0 <= c < |C.given| && Unfinished(C', c) :: Unfinished(C, c)
  }

  lemma OnlyFinishSame(C: Calls)
    ensures OnlyFinish(C, C)
  {
  }

  lemma OnlyFinishThen(C: Calls, C1: Calls, C2: Calls)
    requires OnlyFinish(C, C1) && OnlyFinish(C1, C2)
    ensures OnlyFinish(C, C2)
  {
  }

  lemma SettlesFinish(S: Slots, S': Slots, which: seq<nat>, given: seq<nat>)
    requires Settles(S, S')
    ensures OnlyFinish(Calls(S, which, given), Calls(S', which, given))
  {
  }

  lemma PushFinish(S: Slots, S': Slots, which: seq<nat>, given: seq<nat>, id: nat)
    requires NewRequest(S, S', id) && |which| == SLOTS
    ensures OnlyFinish(Calls(S, which, given), Calls(S', which[id % U32 := |given|], given + [id % U32]))
  {
  }

  lemma ResultFinish(S: Slots, S': Slots, which: seq<nat>, given: seq<nat>, slot: nat)
    requires Sized(S) && Sized(S') && slot < SLOTS && S'.state[slot].FREE?
    requires forall s | 0 <= s < SLOTS && s != slot :: SettlesAt(S, S', s)
    ensures OnlyFinish(Calls(S, which, given), Calls(S', which, given))
  {
    forall c | 0 <= c < |given| && Unfinished(Calls(S', which, given), c)
      ensures Unfinished(Calls(S, which, given), c)
    {
      assert SettlesAt(S, S', given[c]);
    }
  }

  /** The id of an unfinished call finds its own request. */
  lemma FindsIt(C: Calls, nextGen: nat, c: nat)
    requires Tagged(C.S, C.which, C.given, nextGen) && c < |C.given|
    ensures IdOfCall(C.given, c) % U32 == C.given[c]
    ensures Unfinished(C, c) ==> IdOfCall(C.given, c) in LiveIds(C.S)
  {
  }

  /** The id a new request got is that of the newest allocation. */
  lemma NewId(C: Calls, nextGen: nat, c: nat, id: nat)
    requires Tagged(C.S, C.which, C.given, nextGen) && |C.given| == c + 1 && C.given[c] == id % U32
    requires id % U32 < SLOTS && C.which[id % U32] == c && !C.S.state[id % U32].FREE? && C.S.id[id % U32] == id
    ensures id == IdOfCall(C.given, c)
  {
  }

  /** The queue's entries are these calls. */
  predicate Matches(entries: seq<Entry>, calls: seq<nat>, given: seq<nat>, issued: map<nat, Kind>) {
    |entries| == |calls| &&
    forall i | 0 <= i < |calls| ::
      calls[i] in issued && calls[i] < |given| && entries[i] == Entry(IdOfCall(given, calls[i]), issued[calls[i]])
  }

  lemma MatchesLater(entries: seq<Entry>, calls: seq<nat>, given: seq<nat>, given': seq<nat>, issued: map<nat, Kind>,
                     issued': map<nat, Kind>)
    requires Matches(entries, calls, given, issued) && given <= given'
    requires forall c | c in issued :: c in issued' && issued'[c] == issued[c]
    ensures Matches(entries, calls, given', issued')
  {
  }

  /** Every unfinished call of `issued` is among `calls`. */
  predicate Covered(C: Calls, issued: map<nat, Kind>, calls: seq<nat>) {
    forall c | c in issued && Unfinished(C, c) :: c in calls
  }

  lemma CoveredLater(C: Calls, C': Calls, issued: map<nat, Kind>, calls: seq<nat>)
    requires Covered(C, issued, calls) && OnlyFinish(C, C') && forall c | c in issued :: c < |C.given|
    ensures Covered(C', issued, calls)
  {
  }

  /** The first `i` entries have been looked at, and `kept` are the ones still
      unfinished, none of which conflicts. */
  ghost predicate Kept(C: Calls, entries: seq<Entry>, kept: seq<nat>, was: seq<Entry>, calls: seq<nat>, given: seq<nat>,
                       issued: map<nat, Kind>, kind: Kind, i: nat) {
    Matches(entries, kept, given, issued) && Matches(was, calls, given, issued) && i <= |calls| &&
    forall j | 0 <= j < i && Unfinished(C, calls[j]) :: calls[j] in kept && !Conflicts(issued[calls[j]], kind)
  }

  lemma KeptNone(C: Calls, was: seq<Entry>, calls: seq<nat>, given: seq<nat>, issued: map<nat, Kind>, kind: Kind)
    requires Matches(was, calls, given, issued)
    ensures Kept(C, [], [], was, calls, given, issued, kind, 0) && |was| == |calls|
  {
  }

  lemma KeptMore(C: Calls, C': Calls, entries: seq<Entry>, kept: seq<nat>, was: seq<Entry>, calls: seq<nat>,
                 given: seq<nat>,
                 issued: map<nat, Kind>, kind: Kind, i: nat, unfinished: bool)
    requires Kept(C, entries, kept, was, calls, given, issued, kind, i) && i < |calls| == |was|
    requires OnlyFinish(C, C') && C'.given == C.given == given
    requires forall c | 0 <= c < |given| && IdOfCall(given, c) == was[i].id && Unfinished(C', c) ::
               unfinished && !Conflicts(was[i].kind, kind)
    ensures if unfinished then Kept(C', entries + [was[i]], kept + [calls[i]], was, calls, given, issued, kind, i + 1)
            else Kept(C', entries, kept, was, calls, given, issued, kind, i + 1)
  {
  }

  lemma KeptAll(C: Calls, C': Calls, entries: seq<Entry>, kept: seq<nat>, was: seq<Entry>, calls: seq<nat>,
                given: seq<nat>,
                issued: map<nat, Kind>, kind: Kind)
    requires Kept(C', entries, kept, was, calls, given, issued, kind, |calls|) && Covered(C, issued, calls)
    requires OnlyFinish(C, C') && forall c | c in issued :: c < |C.given|
    ensures Matches(entries, kept, given, issued) && Covered(C', issued, kept)
    ensures forall c | c in issued && Conflicts(issued[c], kind) :: !Unfinished(C', c)
  {
  }

  lemma MatchesAdd(entries: seq<Entry>, calls: seq<nat>, given: seq<nat>, issued: map<nat, Kind>, e: Entry, c: nat)
    requires Matches(entries, calls, given, issued) && c < |given| && e.id == IdOfCall(given, c) && c !in issued
    ensures Matches(entries + [e], calls + [c], given, issued[c := e.kind]) && |entries| == |calls|
  {
  }

  lemma CoveredAdd(C: Calls, issued: map<nat, Kind>, calls: seq<nat>, c: nat, kind: Kind)
    requires Covered(C, issued, calls)
    ensures Covered(C, issued[c := kind], calls + [c])
  {
  }

  lemma MatchesFirst(entries: seq<Entry>, calls: seq<nat>, given: seq<nat>, issued: map<nat, Kind>)
    requires Matches(entries, calls, given, issued) && entries != []
    ensures |entries| == |calls| && calls[0] in issued && calls[0] < |given| &&
            entries[0].id == IdOfCall(given, calls[0])
    ensures Matches(entries[1..], calls[1..], given, issued)
  {
  }

  lemma CoveredRest(C: Calls, issued: map<nat, Kind>, calls: seq<nat>)
    requires Covered(C, issued, calls) && calls != [] && !Unfinished(C, calls[0])
    ensures Covered(C, issued, calls[1..])
  {
  }

  lemma FinishedStay(C: Calls, C': Calls, issued: map<nat, Kind>, kind: Kind)
    requires OnlyFinish(C, C') && forall c | c in issued :: c < |C.given|
    requires forall c | c in issued && Conflicts(issued[c], kind) :: !Unfinished(C, c)
    ensures forall c | c in issued && Conflicts(issued[c], kind) :: !Unfinished(C', c)
  {
  }

  /** Of two conflicting calls the earlier one was settled before the later one was
      queued. */
  ghost predicate InOrder(log: seq<Event>, issued: map<nat, Kind>) {
    forall a, b | a in issued && b in issued && a < b && Conflicts(issued[a], issued[b]) :: SettledFirst(log, a, b)
  }

  lemma InOrderLater(log: seq<Event>, log': seq<Event>, issued: map<nat, Kind>)
    requires InOrder(log, issued) && log <= log'
    ensures InOrder(log', issued)
  {
    forall a, b | a in issued && b in issued && a < b && Conflicts(issued[a], issued[b])
      ensures SettledFirst(log', a, b)
    {
      SettledFirstStays(log, log', a, b);
    }
  }

  /** A call queued when everything it conflicts with had finished comes in order. */
  lemma QueuedInOrder(log: seq<Event>, C: Calls, log': seq<Event>, issued: map<nat, Kind>, kind: Kind)
    requires InOrder(log, issued) && Logged(log, C) && log' == log + [Pushed(|C.given|)]
    requires forall c | c in issued :: c < |C.given|
    requires forall c | c in issued && Conflicts(issued[c], kind) :: !Unfinished(C, c)
    ensures InOrder(log', issued[|C.given| := kind])
  {
    InOrderLater(log, log', issued);
    forall a | a in issued && Conflicts(issued[a], kind)
      ensures SettledFirst(log', a, |C.given|)
    {
      SettledBefore(log, C, a, log');
    }
    hide Logged, SettledFirst;
  }

  lemma InTokenOrder(log: seq<Event>, C: Calls, issued: map<nat, Kind>, a: nat, b: nat)
    requires Logged(log, C) && InOrder(log, issued)
    requires a in issued && b in issued && a < b && Conflicts(issued[a], issued[b])
    ensures exists j :: 0 <= j < |log| && log[j] == Pushed(b)
    ensures forall j, k | 0 <= j < k < |log| && log[j] == Pushed(b) :: log[k] != Pushed(b)
    ensures forall j | 0 <= j < |log| && log[j] == Pushed(b) :: Settled(a) in log[..j]
  {
    var i, j :| 0 <= i < j < |log| && log[i] == Settled(a) && log[j] == Pushed(b);
    assert log[..j][i] == Settled(a);
  }

  /** Two calls are in order unless both only read. */
  lemma OnlyReads(a: Kind, b: Kind)
    ensures Conflicts(a, b) <==> !(a == IN && b == IN)
  {
  }

  lemma ReadEntry(entries: seq<Entry>, calls: seq<nat>, given: seq<nat>, issued: map<nat, Kind>, i: nat)
    requires Matches(entries, calls, given, issued) && i < |calls| && forall c | c in issued :: issued[c] == IN
    ensures i < |entries| && !Conflicts(entries[i].kind, IN)
  {
  }

  lemma KeptMatches(C: Calls, entries: seq<Entry>, kept: seq<nat>, was: seq<Entry>, calls: seq<nat>, given: seq<nat>,
                    issued: map<nat, Kind>, kind: Kind, i: nat)
    requires Kept(C, entries, kept, was, calls, given, issued, kind, i)
    ensures Matches(was, calls, given, issued)
  {
  }

  lemma LeftOnlyReads(C: Calls, issued: map<nat, Kind>, kind: Kind)
    requires forall c | c in issued && Conflicts(issued[c], kind) :: !Unfinished(C, c)
    ensures forall c | c in issued && Unfinished(C, c) :: issued[c] == IN && kind == IN
  {
  }

  /** What has been sent, settled and given out. */
  datatype Traffic = Traffic(log: seq<Event>, sent: Sent, slots: Slots)

  /** While only reads are queued a read sends nothing and waits for nothing. */
  predicate Quiet(reading: bool, was: Traffic, now: Traffic) {
    reading ==> now == was
  }

  lemma QuietStart(reading: bool, was: Traffic)
    ensures Quiet(reading, was, was)
  {
  }

  lemma QuietEnd(reading: bool, was: Traffic, now: Traffic)
    requires Quiet(reading, was, now)
    ensures reading ==> now == was
  {
  }

  class Tracker {
    const rings: Rings
    const q: array<Entry>
    var n: nat
    /** Every tagged call issued, by its allocation, and which ones are queued. */
    ghost var issued: map<nat, Kind>
    ghost var calls: seq<nat>

    ghost function Now(): Calls
      reads rings, rings.table
    {
      Calls(rings.table.slots, rings.table.which, rings.table.given)
    }

    ghost predicate Valid()
      reads this, q, rings, rings.table
    {
      rings.Valid() && q.Length == QLEN && n <= QLEN && Matches(q[..n], calls, rings.table.given, issued) &&
      (forall c | c in issued :: c < |rings.table.given|) && Covered(Now(), issued, calls) &&
      InOrder(rings.log, issued)
    }

    constructor (rings: Rings)
      requires rings.Valid()
      ensures Valid() && this.rings == rings && issued == map[] && fresh(q)
    {
      this.rings := rings;
      q := new Entry[QLEN](_ => Entry(0, IN));
      n, issued, calls := 0, map[], [];
    }

    ghost function Moves(): Traffic
      reads rings, rings.table
    {
      Traffic(rings.log, rings.sent, rings.table.slots)
    }

    /** In every state: of two tagged calls that do not both only read the earlier one was settled
        before the later one was queued, which happened once. */
    lemma TokenOrder(a: nat, b: nat)
      requires Valid() && a in issued && b in issued && a < b && !(issued[a] == IN && issued[b] == IN)
      ensures exists j :: 0 <= j < |rings.log| && rings.log[j] == Pushed(b)
      ensures forall j, k | 0 <= j < k < |rings.log| && rings.log[j] == Pushed(b) :: rings.log[k] != Pushed(b)
      ensures forall j | 0 <= j < |rings.log| && rings.log[j] == Pushed(b) :: Settled(a) in rings.log[..j]
    {
      OnlyReads(issued[a], issued[b]);
      InTokenOrder(rings.log, Now(), issued, a, b);
    }

    /** Waits for a queued call if it is unfinished and `wait`, and says whether it
        is unfinished still. */
    method Check(id: nat, wait: bool) returns (unfinished: bool)
      requires rings.Valid()
      modifies rings, rings.table
      ensures rings.Valid() && OnlyFinish(old(Now()), Now()) && rings.table.given == old(rings.table.given)
      ensures old(rings.log) <= rings.log
      ensures forall c | 0 <= c < |rings.table.given| && IdOfCall(rings.table.given, c) == id && Unfinished(Now(), c) ::
                unfinished && !wait
      ensures rings.sent.pushed == old(rings.sent).pushed
      ensures !wait ==> Moves() == old(Moves())
    {
      hide SqOk, CqOk, Logged, SettledFirst, InOrder, Conserved, Truthful, PendingSlots, Settles, LiveIds;
      ghost var C := Now();
      OnlyFinishSame(C);
      var found, slot := rings.table.Lookup(id);
      if found && rings.table.slots.state[slot].PENDING? && wait {
        var result := rings.ReqWait(slot);
        SettlesFinish(C.S, rings.table.slots, C.which, C.given);
      }
      var found', slot' := rings.table.Lookup(id);
      unfinished := found' && rings.table.slots.state[slot'].PENDING?;
      forall c | 0 <= c < |rings.table.given| && IdOfCall(rings.table.given, c) == id
        ensures Unfinished(Now(), c) ==> unfinished && !wait
      {
        FindsIt(Now(), rings.table.nextGen, c);
      }
    }

    /** One entry of the queue. */
    method Turn(ghost C: Calls, e: Entry, kind: Kind, ghost entries: seq<Entry>, ghost kept: seq<nat>,
                ghost was: seq<Entry>, ghost i: nat, ghost reading: bool, ghost moves: Traffic)
      returns (unfinished: bool)
      requires rings.Valid() && OnlyFinish(C, Now()) && rings.table.given == C.given
      requires Kept(Now(), entries, kept, was, calls, C.given, issued, kind, i) && i < |calls| == |was| && e == was[i]
      requires Quiet(reading, moves, Moves()) && (reading ==> kind == IN && forall c | c in issued :: issued[c] == IN)
      modifies rings, rings.table
      ensures rings.Valid() && OnlyFinish(C, Now()) && rings.table.given == C.given
      ensures if unfinished then Kept(Now(), entries + [e], kept + [calls[i]], was, calls, C.given, issued, kind, i + 1)
              else Kept(Now(), entries, kept, was, calls, C.given, issued, kind, i + 1)
      ensures old(rings.log) <= rings.log && rings.sent.pushed == old(rings.sent).pushed
      ensures Quiet(reading, moves, Moves())
    {
      hide SqOk, CqOk, Logged, SettledFirst, InOrder, Conserved, Truthful, PendingSlots, LiveIds, OnlyFinish,
           Unfinished, Conflicts, Covered, Matches, Kept;
      ghost var C1 := Now();
      if reading {
        KeptMatches(C1, entries, kept, was, calls, C.given, issued, kind, i);
        ReadEntry(was, calls, C.given, issued, i);
      }
      unfinished := Check(e.id, Conflicts(e.kind, kind));
      OnlyFinishThen(C, C1, Now());
      KeptMore(C1, Now(), entries, kept, was, calls, C.given, issued, kind, i, unfinished);
    }

    /** An entry that stays moves to the front. */
    method Keep(keep: nat, i: nat, e: Entry, stays: bool, ghost was: seq<Entry>) returns (keep': nat)
      requires keep <= i < n <= q.Length && n == |was| && q[i..n] == was[i..]
      modifies q
      ensures keep' == (if stays then keep + 1 else keep) && q[i + 1..n] == was[i + 1..]
      ensures q[..keep'] == if stays then old(q[..keep]) + [e] else old(q[..keep])
    {
      assert q[i + 1..n] == q[i..n][1..];
      keep' := keep;
      if stays {
        q[keep] := e;
        assert q[..keep + 1] == q[..keep] + [e];
        keep' := keep + 1;
      }
      assert q[i + 1..n] == was[i + 1..];
    }

    /** Waits for every unfinished call on the token that conflicts, and drops the
        finished ones from the queue, in place. */
    method Wait(kind: Kind)
      requires Valid()
      modifies this`n, this`calls, q, rings, rings.table
      ensures Valid() && OnlyFinish(old(Now()), Now()) && rings.table.given == old(rings.table.given)
      ensures old(rings.log) <= rings.log
      ensures forall c | c in issued && Conflicts(issued[c], kind) :: !Unfinished(Now(), c)
      ensures rings.sent.pushed == old(rings.sent).pushed
      ensures forall c | c in issued && Unfinished(Now(), c) :: issued[c] == IN && kind == IN
      ensures kind == IN && (forall c | c in issued :: issued[c] == IN) ==>
                Moves() == old(Moves())
    {
      hide SqOk, CqOk, Logged, SettledFirst, InOrder, Conserved, Truthful, PendingSlots, LiveIds, OnlyFinish,
           Unfinished, Conflicts, Covered, Matches, Kept, Quiet;
      ghost var C, given := Now(), rings.table.given;
      OnlyFinishSame(C);
      var keep, i := 0, 0;
      ghost var kept: seq<nat> := [];
      ghost var was := q[..n];
      KeptNone(C, was, calls, given, issued, kind);
      ghost var reading := kind == IN && forall c | c in issued :: issued[c] == IN;
      ghost var moves := Moves();
      QuietStart(reading, moves);
      while i < n
        invariant old(rings.log) <= rings.log
        invariant rings.Valid() && OnlyFinish(C, Now()) && rings.table.given == given &&
                  rings.sent.pushed == old(rings.sent).pushed
        invariant calls == old(calls) && keep <= i <= n <= |was| == |calls| && n == |was| && q.Length == QLEN
        invariant q[i..n] == was[i..] && Kept(Now(), q[..keep], kept, was, calls, given, issued, kind, i)
        invariant Quiet(reading, moves, Moves())
        decreases n - i
      {
        var e := q[i];
        assert e == q[i..n][0] == was[i];
        var unfinished := Turn(C, e, kind, q[..keep], kept, was, i, reading, moves);
        keep := Keep(keep, i, e, unfinished, was);
        if unfinished {
          kept := kept + [calls[i]];
        }
        i := i + 1;
      }
      QuietEnd(reading, moves, Moves());
      InOrderLater(old(rings.log), rings.log, issued);
      KeptAll(C, Now(), q[..keep], kept, was, calls, given, issued, kind);
      n := keep;
      calls := kept;
      LeftOnlyReads(Now(), issued, kind);
    }

    /** Appends a call; when the queue is full the oldest one is waited for and
        dropped. */
    method Track(id: nat, kind: Kind, ghost c: nat)
      requires Valid() && id != 0 && c < |rings.table.given| && id == IdOfCall(rings.table.given, c) && c !in issued
      requires InOrder(rings.log, issued[c := kind])
      modifies this`n, this`issued, this`calls, q, rings, rings.table
      ensures Valid() && OnlyFinish(old(Now()), Now()) && rings.table.given == old(rings.table.given)
      ensures old(rings.log) <= rings.log
      ensures issued == old(issued)[c := kind]
      ensures rings.sent.pushed == old(rings.sent).pushed
      ensures old(n) < QLEN ==> Moves() == old(Moves()) && n == old(n) + 1
    {
      hide SqOk, CqOk, Logged, SettledFirst, InOrder, Conserved, Truthful, PendingSlots, LiveIds, OnlyFinish,
           Unfinished, Covered, Matches;
      ghost var C := Now();
      OnlyFinishSame(C);
      while n >= QLEN
        invariant old(n) < QLEN ==> Moves() == old(Moves()) && n == old(n)
        invariant old(rings.log) <= rings.log
        invariant Valid() && OnlyFinish(C, Now()) && rings.table.given == C.given && issued == old(issued)
        invariant rings.sent.pushed == old(rings.sent).pushed
        decreases n
      {
        ghost var C1 := Now();
        DropOldest();
        OnlyFinishThen(C, C1, Now());
      }
      InOrderLater(old(rings.log), rings.log, issued[c := kind]);
      MatchesAdd(q[..n], calls, rings.table.given, issued, Entry(id, kind), c);
      CoveredAdd(Now(), issued, calls, c, kind);
      q[n] := Entry(id, kind);
      assert q[..n + 1] == q[..n] + [Entry(id, kind)];
      n := n + 1;
      issued, calls := issued[c := kind], calls + [c];
    }

    method DropOldest()
      requires Valid() && n > 0
      modifies this`n, this`calls, q, rings, rings.table
      ensures Valid() && OnlyFinish(old(Now()), Now()) && rings.table.given == old(rings.table.given) && n == old(n) - 1
      ensures old(rings.log) <= rings.log
      ensures rings.sent.pushed == old(rings.sent).pushed
    {
      hide SqOk, CqOk, Logged, SettledFirst, InOrder, Conserved, Truthful, PendingSlots, LiveIds, OnlyFinish,
           Unfinished, Covered, Matches;
      MatchesFirst(q[..n], calls, rings.table.given, issued);
      assert q[..n][1..] == q[1..n];
      ghost var C := Now();
      var unfinished := Check(q[0].id, true);
      CoveredLater(C, Now(), issued, calls);
      CoveredRest(Now(), issued, calls);
      InOrderLater(old(rings.log), rings.log, issued);
      Shift();
    }

    method Shift()
      requires rings.Valid() && q.Length == QLEN && 0 < n <= QLEN && n == |calls|
      requires Matches(q[1..n], calls[1..], rings.table.given, issued) && Covered(Now(), issued, calls[1..])
      requires InOrder(rings.log, issued) && forall c | c in issued :: c < |rings.table.given|
      modifies this`n, this`calls, q
      ensures Valid() && n == old(n) - 1
    {
      hide SqOk, CqOk, Logged, SettledFirst, InOrder, Conserved, Truthful, PendingSlots, LiveIds, OnlyFinish,
           Unfinished, Covered, Matches;
      ghost var was := q[..n];
      assert was[1..] == q[1..n];
      for i := 1 to n
        invariant n == old(n) && q[..i - 1] == was[1..i] && q[i..n] == was[i..] && calls == old(calls)
      {
        assert q[i] == q[i..n][0] == was[i];
        q[i - 1] := q[i];
        assert q[..i] == q[..i - 1] + [was[i]];
        assert was[1..i + 1] == was[1..i] + [was[i]];
        assert q[i + 1..n] == was[i + 1..];
      }
      n := n - 1;
      calls := calls[1..];
      assert q[..n] == was[1..];
    }

    /** Other threads, and untagged calls: requests are queued, answered, and
        collected. */
    method Others()
      requires Valid()
      modifies rings, rings.table
      ensures Valid() && OnlyFinish(old(Now()), Now())
      ensures old(rings.log) <= rings.log
      ensures old(rings.sent).pushed <= rings.sent.pushed
    {
      hide SqOk, CqOk, Logged, SettledFirst, InOrder, Conserved, Truthful, PendingSlots, LiveIds, OnlyFinish,
           Unfinished, Covered, Matches, NewRequest;
      ghost var C := Now();
      OnlyFinishSame(C);
      var steps: nat := *;
      while steps > 0
        invariant old(rings.log) <= rings.log
        invariant Valid() && OnlyFinish(C, Now()) && old(rings.sent).pushed <= rings.sent.pushed
      {
        ghost var C1 := Now();
        var which: nat, x: nat := *, *;
        if which == 0 {
          var id, error := Push(x, 0, x, x, x);
        } else if which == 1 {
          Answers();
        } else {
          Collect(x);
        }
        OnlyFinishThen(C, C1, Now());
        steps := steps - 1;
      }
    }

    method Answers()
      requires Valid()
      modifies rings, rings.table
      ensures Valid() && OnlyFinish(old(Now()), Now())
      ensures old(rings.log) <= rings.log
      ensures rings.sent.pushed == old(rings.sent).pushed
    {
      hide SqOk, CqOk, Logged, SettledFirst, InOrder, Conserved, Truthful, PendingSlots, LiveIds, OnlyFinish,
           Unfinished, Covered, Matches,
           NewRequest, Settles;
      ghost var C := Now();
      rings.Poll();
      SettlesFinish(C.S, rings.table.slots, C.which, C.given);
      InOrderLater(old(rings.log), rings.log, issued);
      CoveredLater(C, Now(), issued, calls);
    }

    method Collect(id: nat)
      requires Valid()
      modifies rings, rings.table
      ensures Valid() && OnlyFinish(old(Now()), Now())
      ensures old(rings.log) <= rings.log
      ensures rings.sent.pushed == old(rings.sent).pushed
    {
      hide SqOk, CqOk, Logged, SettledFirst, InOrder, Conserved, Truthful, PendingSlots, LiveIds, OnlyFinish,
           Unfinished, Covered, Matches,
           NewRequest, Settles;
      ghost var C := Now();
      OnlyFinishSame(C);
      var known, result := rings.Result(id);
      if known {
        ResultFinish(C.S, rings.table.slots, C.which, C.given, id % U32);
      }
      InOrderLater(old(rings.log), rings.log, issued);
      CoveredLater(C, Now(), issued, calls);
    }

    /** A request is queued, for the token or not. */
    method Push(op: nat, target: int, addr: nat, len: nat, offset: nat) returns (id: nat, error: PushError)
      requires Valid()
      modifies rings, rings.table
      ensures Sized(rings.table.slots) &&
              (id == 0 ==> len > MAX_LEN || target == rings.fd || Full(rings.table.slots))
      ensures Valid() && OnlyFinish(old(Now()), Now()) && (error.Fine? <==> id != 0)
      ensures error.Fine? ==>
                |old(rings.table.given)| < |rings.table.given| &&
                id == IdOfCall(rings.table.given, |old(rings.table.given)|)
      ensures rings.log == old(rings.log) + if id != 0 then [Pushed(|old(rings.table.given)|)] else []
      ensures rings.sent.pushed == old(rings.sent).pushed + if id != 0 then [Sqe(op, target, addr, len, offset, id)]
              else []
    {
      hide SqOk, CqOk, Logged, SettledFirst, InOrder, Conserved, Truthful, PendingSlots, LiveIds, OnlyFinish,
           Unfinished, Covered, Matches;
      ghost var C := Now();
      OnlyFinishSame(C);
      id, error := rings.Push(op, target, addr, len, offset);
      if error.Fine? {
        PushFinish(C.S, rings.table.slots, C.which, C.given, id);
        NewId(Now(), rings.table.nextGen, |C.given|, id);
      } else {
        assert rings.table.given == C.given;
      }
      InOrderLater(old(rings.log), rings.log, issued);
      CoveredLater(C, Now(), issued, calls);
      MatchesLater(q[..n], calls, C.given, rings.table.given, issued, issued);
    }

    /** A tagged call: it waits for the conflicting ones before it on the token, is
        queued, and joins the token's queue. */
    method Issue(kind: Kind, op: nat, target: int, addr: nat, len: nat, offset: nat) returns (id: nat)
      requires Valid()
      modifies this`n, this`issued, this`calls, q, rings, rings.table
      ensures Sized(rings.table.slots) &&
              (id == 0 ==> len > MAX_LEN || target == rings.fd || Full(rings.table.slots))
      ensures Valid() && OnlyFinish(old(Now()), Now()) && n <= QLEN
      ensures old(rings.log) <= rings.log
      ensures forall c | c in old(issued) && Conflicts(old(issued)[c], kind) :: !Unfinished(Now(), c)
      ensures if id == 0 then issued == old(issued)
              else exists c ::
                old(|rings.table.given|) <= c < |rings.table.given| && issued == old(issued)[c := kind] &&
                id == IdOfCall(rings.table.given, c)
      ensures old(rings.sent).pushed <= rings.sent.pushed
      ensures id != 0 ==>
                rings.sent.pushed != [] &&
                rings.sent.pushed[|rings.sent.pushed| - 1] == Sqe(op, target, addr, len, offset, id)
      ensures forall c | c in old(issued) && Unfinished(Now(), c) :: old(issued)[c] == IN && kind == IN
    {
      hide SqOk, CqOk, Logged, SettledFirst, InOrder, Conserved, Truthful, PendingSlots, LiveIds, OnlyFinish,
           Unfinished, Covered, Matches, NewRequest;
      ghost var C := Now();
      Wait(kind);
      ghost var C1 := Now();
      Others();
      OnlyFinishThen(C, C1, Now());
      FinishedStay(C1, Now(), issued, kind);
      ghost var C2, log2 := Now(), rings.log;
      var error;
      id, error := Push(op, target, addr, len, offset);
      OnlyFinishThen(C, C2, Now());
      FinishedStay(C2, Now(), issued, kind);
      if error.Fine? {
        ghost var C3 := Now();
        ghost var earlier := issued;
        QueuedInOrder(log2, C2, rings.log, issued, kind);
        Track(id, kind, |C2.given|);
        OnlyFinishThen(C, C3, Now());
        FinishedStay(C3, Now(), earlier, kind);
      }
      LeftOnlyReads(Now(), old(issued), kind);
    }
  }
}
