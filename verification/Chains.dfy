/** Intrusive singly linked lists. Records live in an arena and are named by
    their index; each pointer field of a record type is a sequence, so
    `next[x]` is the link stored in record `x`. A `seq<nat>` says which records
    a list really holds, in order. */
module Chains {

  type Ref = int

  const NULL: Ref := -1

  function Head(s: seq<nat>): Ref {
    if s == [] then NULL else s[0]
  }

  predicate Distinct(s: seq<nat>) {
    forall i, j | 0 <= i < j < |s| :: s[i] != s[j]
  }

  function Without(s: seq<nat>, k: nat): (r: seq<nat>)
    requires k < |s|
    ensures |r| == |s| - 1 && forall i | 0 <= i < |r| :: r[i] == if i < k then s[i] else s[i + 1]
  {
    s[..k] + s[k + 1..]
  }

  lemma WithoutDistinct(s: seq<nat>, k: nat)
    requires k < |s| && Distinct(s)
    ensures Distinct(Without(s, k))
    ensures forall x :: x in Without(s, k) <==> x in s && x != s[k]
  {
  }

  /** `first` starts a list of exactly the records `s`. */
  predicate Linked(next: seq<Ref>, first: Ref, s: seq<nat>) {
    first == Head(s) && Distinct(s) && (forall i | 0 <= i < |s| :: s[i] < |next|) &&
    forall i {:trigger next[s[i]]} | 0 <= i < |s| :: next[s[i]] == if i + 1 < |s| then s[i + 1] else NULL
  }

  function AppendNext(next: seq<Ref>, s: seq<nat>, x: nat): seq<Ref>
    requires s != [] ==> s[|s| - 1] < |next|
  {
    if s == [] then next else next[s[|s| - 1] := x]
  }

  /** The links after record `s[k]` is unlinked. */
  function RemoveNext(next: seq<Ref>, s: seq<nat>, k: nat): (r: seq<Ref>)
    requires k < |s| && forall i | 0 <= i < |s| :: s[i] < |next|
    ensures |r| == |next|
  {
    if k == 0 then next else next[s[k - 1] := next[s[k]]]
  }

  lemma LinkedRemove(next: seq<Ref>, first: Ref, s: seq<nat>, k: nat)
    requires Linked(next, first, s) && k < |s|
    ensures Linked(RemoveNext(next, s, k), if k == 0 then next[s[0]] else first, Without(s, k))
  {
  }

  // ---- A family of lists over one kind of record ----

  /** One list per head; `owner` says which list a record can be in, so no
      record is in two. */
  predicate Family(next: seq<Ref>, firsts: seq<Ref>, lists: seq<seq<nat>>, owner: seq<int>) {
    |firsts| == |lists| &&
    forall l | 0 <= l < |lists| :: Linked(next, firsts[l], lists[l]) && OwnedBy(owner, lists[l], l)
  }

  predicate OwnedBy(owner: seq<int>, s: seq<nat>, l: nat) {
    forall i | 0 <= i < |s| :: s[i] < |owner| && owner[s[i]] == l
  }

  /** Changing the links of records in no list of the family keeps it. */
  lemma FamilyFrame(next: seq<Ref>, next': seq<Ref>, firsts: seq<Ref>, lists: seq<seq<nat>>, owner: seq<int>,
                    owner': seq<int>)
    requires Family(next, firsts, lists, owner)
    requires forall l, i | 0 <= l < |lists| && 0 <= i < |lists[l]| ::
               lists[l][i] < |next'| && next'[lists[l][i]] == next[lists[l][i]] &&
               lists[l][i] < |owner'| && owner'[lists[l][i]] == owner[lists[l][i]]
    ensures Family(next', firsts, lists, owner')
  {
  }

  /** Changing one list, and links of its own records only. */
  lemma FamilyUpdate(next: seq<Ref>, next': seq<Ref>, firsts: seq<Ref>, lists: seq<seq<nat>>, owner: seq<int>,
                     l: nat, first: Ref, s: seq<nat>)
    requires Family(next, firsts, lists, owner) && l < |lists|
    requires |next'| == |next| && forall x | 0 <= x < |next| && next'[x] != next[x] :: x < |owner| && owner[x] == l
    requires Linked(next', first, s) && OwnedBy(owner, s, l)
    ensures Family(next', firsts[l := first], lists[l := s], owner)
  {
  }

  lemma FamilyPush(next: seq<Ref>, firsts: seq<Ref>, lists: seq<seq<nat>>, owner: seq<int>, l: nat, x: nat)
    requires Family(next, firsts, lists, owner) && l < |lists|
    requires x < |next| && x < |owner| && owner[x] == l && x !in lists[l]
    ensures Family(next[x := firsts[l]], firsts[l := x], lists[l := [x] + lists[l]], owner)
  {
  }

  lemma FamilyAppend(next: seq<Ref>, firsts: seq<Ref>, lists: seq<seq<nat>>, owner: seq<int>, l: nat, x: nat)
    requires Family(next, firsts, lists, owner) && l < |lists|
    requires x < |next| && x < |owner| && owner[x] == l && x !in lists[l] && next[x] == NULL
    ensures Family(AppendNext(next, lists[l], x), firsts[l := Head(lists[l] + [x])], lists[l := lists[l] + [x]], owner)
  {
  }

  lemma FamilyRemove(next: seq<Ref>, firsts: seq<Ref>, lists: seq<seq<nat>>, owner: seq<int>, l: nat, k: nat)
    requires Family(next, firsts, lists, owner) && l < |lists| && k < |lists[l]|
    ensures Family(RemoveNext(next, lists[l], k), firsts[l := if k == 0 then next[lists[l][0]] else firsts[l]],
                   lists[l := Without(lists[l], k)], owner)
  {
    LinkedRemove(next, firsts[l], lists[l], k);
    FamilyUpdate(next, RemoveNext(next, lists[l], k), firsts, lists, owner, l,
                 if k == 0 then next[lists[l][0]] else firsts[l], Without(lists[l], k));
  }

  predicate Nowhere(lists: seq<seq<nat>>, l: nat) {
    forall m | 0 <= m < |lists| :: l !in lists[m]
  }

  /** An unlisted record moves to list `b`. */
  lemma ListedAgain(next: seq<Ref>, firsts: seq<Ref>, lists: seq<seq<nat>>, owner: seq<int>, l: nat, b: nat)
    requires Family(next, firsts, lists, owner) && Nowhere(lists, l) && l < |next| == |owner| && b < |lists|
    ensures Family(next[l := firsts[b]], firsts[b := l], lists[b := [l] + lists[b]], owner[l := b])
  {
    forall m, i | 0 <= m < |lists| && 0 <= i < |lists[m]|
      ensures lists[m][i] < |owner| && lists[m][i] != l
    {
      assert OwnedBy(owner, lists[m], m) && lists[m][i] in lists[m];
    }
    FamilyFrame(next, next, firsts, lists, owner, owner[l := b]);
    FamilyPush(next, firsts, lists, owner[l := b], b, l);
  }

  lemma RemovedNowhere(next: seq<Ref>, firsts: seq<Ref>, lists: seq<seq<nat>>, owner: seq<int>, b: nat, k: nat)
    requires Family(next, firsts, lists, owner) && b < |lists| && k < |lists[b]|
    ensures Nowhere(lists[b := Without(lists[b], k)], lists[b][k])
    ensures forall l :: l in Without(lists[b], k) <==> l in lists[b] && l != lists[b][k]
  {
  }

  lemma LinkedEnds(next: seq<Ref>, first: Ref, s: seq<nat>)
    requires Linked(next, first, s)
    ensures first == Head(s) && Distinct(s) && forall i | 0 <= i < |s| :: s[i] < |next|
  {
  }

  // ---- A filing system: every record is in the list its place names ----

  /** A record is in exactly the list its place names; one with a negative place
      is in none. */
  ghost predicate Filed(next: seq<Ref>, firsts: seq<Ref>, lists: seq<seq<nat>>, place: seq<int>) {
    Family(next, firsts, lists, place) && |next| == |place| &&
    forall x | 0 <= x < |place| && 0 <= place[x] :: place[x] < |lists| && x in lists[place[x]]
  }

  lemma FiledList(next: seq<Ref>, firsts: seq<Ref>, lists: seq<seq<nat>>, place: seq<int>, l: nat)
    requires Filed(next, firsts, lists, place) && l < |firsts|
    ensures |firsts| == |lists| && |next| == |place| && Linked(next, firsts[l], lists[l])
    ensures forall x :: x in lists[l] <==> 0 <= x < |place| && place[x] == l
    ensures forall i | 0 <= i < |lists[l]| :: lists[l][i] < |place| && place[lists[l][i]] == l
    ensures firsts[l] == Head(lists[l])
  {
  }

  /** Where a filed record is in its list. */
  lemma FiledAt(next: seq<Ref>, firsts: seq<Ref>, lists: seq<seq<nat>>, place: seq<int>, x: nat) returns (k: nat)
    requires Filed(next, firsts, lists, place) && x < |place| && place[x] >= 0
    ensures place[x] < |firsts| == |lists| && |next| == |place| && k < |lists[place[x]]| && lists[place[x]][k] == x
    ensures Linked(next, firsts[place[x]], lists[place[x]])
    ensures forall i | 0 <= i < |lists[place[x]]| :: lists[place[x]][i] < |next|
  {
    k :| 0 <= k < |lists[place[x]]| && lists[place[x]][k] == x;
  }

  lemma UnfiledNowhere(next: seq<Ref>, firsts: seq<Ref>, lists: seq<seq<nat>>, place: seq<int>, x: nat)
    requires Filed(next, firsts, lists, place) && x < |place| && place[x] < 0
    ensures Nowhere(lists, x) && x < |next|
  {
  }

  /** An unfiled record is put at the head of list `b`. */
  lemma FiledIn(next: seq<Ref>, firsts: seq<Ref>, lists: seq<seq<nat>>, place: seq<int>, x: nat, b: nat)
    requires Filed(next, firsts, lists, place) && x < |place| && place[x] < 0 && b < |lists|
    ensures |firsts| == |lists| && |next| == |place|
    ensures Filed(next[x := firsts[b]], firsts[b := x], lists[b := [x] + lists[b]], place[x := b])
  {
    UnfiledNowhere(next, firsts, lists, place, x);
    ListedAgain(next, firsts, lists, place, x, b);
    var lists', place' := lists[b := [x] + lists[b]], place[x := b];
    forall y | 0 <= y < |place'| && 0 <= place'[y]
      ensures place'[y] < |lists'| && y in lists'[place'[y]]
    {
      assert y != x ==> y in lists[place[y]];
    }
    hide Family;
  }

  /** A filed record is taken out of its list. */
  lemma FiledOut(next: seq<Ref>, firsts: seq<Ref>, lists: seq<seq<nat>>, place: seq<int>, x: nat, k: nat)
    requires Filed(next, firsts, lists, place) && x < |place| && 0 <= place[x] < |lists|
    requires k < |lists[place[x]]| && lists[place[x]][k] == x
    ensures |firsts| == |lists| && |next| == |place| &&
            forall i | 0 <= i < |lists[place[x]]| :: lists[place[x]][i] < |next|
    ensures Filed(RemoveNext(next, lists[place[x]], k),
                  firsts[place[x] := if k == 0 then next[x] else firsts[place[x]]],
                  lists[place[x] := Without(lists[place[x]], k)], place[x := -1])
  {
    var b := place[x];
    var next' := RemoveNext(next, lists[b], k);
    var firsts', lists', place' := firsts[b := if k == 0 then next[x] else firsts[b]], lists[b := Without(lists[b], k)],
      place[x := -1];
    FamilyRemove(next, firsts, lists, place, b, k);
    RemovedNowhere(next, firsts, lists, place, b, k);
    forall m, i | 0 <= m < |lists'| && 0 <= i < |lists'[m]|
      ensures lists'[m][i] < |place'| && place'[lists'[m][i]] == place[lists'[m][i]] && lists'[m][i] < |next'|
    {
      assert lists'[m][i] in lists'[m] && OwnedBy(place, lists'[m], m);
      assert Linked(next', firsts'[m], lists'[m]);
    }
    FamilyFrame(next', next', firsts', lists', place, place');
    forall y | 0 <= y < |place'| && 0 <= place'[y]
      ensures place'[y] < |lists'| && y in lists'[place'[y]]
    {
      assert y in lists[place[y]];
    }
    hide Family;
  }

  lemma FiledGrow(next: seq<Ref>, firsts: seq<Ref>, lists: seq<seq<nat>>, place: seq<int>)
    requires Filed(next, firsts, lists, place)
    ensures Filed(next + [NULL], firsts, lists, place + [-1])
  {
  }

  /** The link of an unfiled record does not matter. */
  lemma FiledIgnore(next: seq<Ref>, firsts: seq<Ref>, lists: seq<seq<nat>>, place: seq<int>, x: nat, link: Ref)
    requires Filed(next, firsts, lists, place) && x < |place| && place[x] < 0
    ensures x < |next| && Filed(next[x := link], firsts, lists, place)
  {
  }

  /** Walks a list to the record before `x`; -1 when `x` comes first. */
  method FindBefore(next: seq<Ref>, first: Ref, ghost s: seq<nat>, x: nat, ghost k: nat) returns (before: Ref)
    requires Linked(next, first, s) && k < |s| && s[k] == x
    ensures before == if k == 0 then NULL else s[k - 1]
  {
    before := NULL;
    var cur := first;
    ghost var i := 0;
    while cur != x
      invariant 0 <= i <= k && cur == s[i] && before == if i == 0 then NULL else s[i - 1]
      decreases k - i
    {
      before := cur;
      cur := next[cur];
      i := i + 1;
    }
    assert i == k;
  }

  /** Walks a list to its last record; -1 when it is empty. */
  method FindLast(next: seq<Ref>, first: Ref, ghost s: seq<nat>) returns (last: Ref)
    requires Linked(next, first, s)
    ensures last == if s == [] then NULL else s[|s| - 1]
  {
    last := first;
    if first == NULL {
      return;
    }
    ghost var i := 0;
    while next[last] != NULL
      invariant 0 <= i < |s| && last == s[i]
      decreases |s| - i
    {
      last := next[last];
      i := i + 1;
    }
  }

  /** A new record, linked behind the last one of a list. */
  method AppendRecord(next: seq<Ref>, first: Ref, ghost s: seq<nat>) returns (next': seq<Ref>, first': Ref)
    requires Linked(next, first, s)
    ensures next' == AppendNext(next + [NULL], s, |next|) && first' == Head(s + [|next|])
  {
    var last := FindLast(next, first, s);
    next' := next + [NULL];
    if last == NULL {
      first' := |next|;
    } else {
      next', first' := next'[last := |next|], first;
    }
  }

  /** Takes `x` out of a list: what pointed at it points at its successor. */
  method Unlink(next: seq<Ref>, first: Ref, ghost s: seq<nat>, x: nat, ghost k: nat)
    returns (next': seq<Ref>, first': Ref)
    requires Linked(next, first, s) && k < |s| && s[k] == x
    ensures next' == RemoveNext(next, s, k) && first' == if k == 0 then next[x] else first
  {
    var before := FindBefore(next, first, s, x, k);
    if before == NULL {
      next', first' := next, next[x];
    } else {
      next', first' := next[before := next[x]], first;
    }
  }
}
