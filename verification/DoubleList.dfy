/** Intrusive lists linked both ways, of records in order of creation: `newer[x]`
    and `older[x]` are the links stored in record `x`. */
module DoubleList {
  import opened Chains

  predicate Ascending(s: seq<nat>) {
    forall i, j | 0 <= i < j < |s| :: s[i] < s[j]
  }

  function Last(s: seq<nat>): Ref {
    if s == [] then NULL else s[|s| - 1]
  }

  predicate LinkedNewer(newer: seq<Ref>, live: seq<nat>) {
    (forall i | 0 <= i < |live| :: live[i] < |newer|) &&
    forall i {:trigger newer[live[i]]} | 0 <= i < |live| :: newer[live[i]] == if i + 1 < |live| then live[i + 1]
      else NULL
  }

  predicate LinkedOlder(older: seq<Ref>, live: seq<nat>) {
    (forall i | 0 <= i < |live| :: live[i] < |older|) &&
    forall i {:trigger older[live[i]]} | 0 <= i < |live| :: older[live[i]] == if i > 0 then live[i - 1] else NULL
  }

  /** The links of the records `live` lead along them in both directions. */
  predicate Linked2(newer: seq<Ref>, older: seq<Ref>, live: seq<nat>) {
    Ascending(live) && |newer| == |older| && LinkedNewer(newer, live) && LinkedOlder(older, live)
  }

  function AddNewer(newer: seq<Ref>, live: seq<nat>): (r: seq<Ref>)
    requires live != [] ==> live[|live| - 1] < |newer|
    ensures |r| == |newer| + 1
  {
    (if live == [] then newer else newer[live[|live| - 1] := |newer|]) + [NULL]
  }

  lemma LinkedAdd(newer: seq<Ref>, older: seq<Ref>, live: seq<nat>)
    requires Linked2(newer, older, live)
    ensures Linked2(AddNewer(newer, live), older + [Last(live)], live + [|newer|])
  {
  }

  /** The neighbours of the `k`th record are linked past it; its own links stay. */
  function RemoveNewer(newer: seq<Ref>, live: seq<nat>, k: nat): (r: seq<Ref>)
    requires k < |live| && forall i | 0 <= i < |live| :: live[i] < |newer|
    ensures |r| == |newer|
  {
    if k == 0 then newer else newer[live[k - 1] := newer[live[k]]]
  }

  function RemoveOlder(older: seq<Ref>, live: seq<nat>, k: nat): (r: seq<Ref>)
    requires k < |live| && forall i | 0 <= i < |live| :: live[i] < |older|
    ensures |r| == |older|
  {
    if k + 1 == |live| then older else older[live[k + 1] := older[live[k]]]
  }

  lemma LinkedRemove2(newer: seq<Ref>, older: seq<Ref>, live: seq<nat>, k: nat)
    requires Linked2(newer, older, live) && k < |live|
    ensures Linked2(RemoveNewer(newer, live, k), RemoveOlder(older, live, k), Without(live, k))
  {
    NewerRemove(newer, live, k);
    OlderRemove(older, live, k);
    hide LinkedNewer, LinkedOlder;
  }

  lemma NewerRemove(newer: seq<Ref>, live: seq<nat>, k: nat)
    requires Ascending(live) && LinkedNewer(newer, live) && k < |live|
    ensures LinkedNewer(RemoveNewer(newer, live, k), Without(live, k))
  {
  }

  lemma OlderRemove(older: seq<Ref>, live: seq<nat>, k: nat)
    requires Ascending(live) && LinkedOlder(older, live) && k < |live|
    ensures LinkedOlder(RemoveOlder(older, live, k), Without(live, k))
  {
  }

  lemma AscendingDistinct(s: seq<nat>)
    requires Ascending(s)
    ensures Distinct(s)
  {
  }

  /** A new record is linked behind the newest one. */
  method LinkNewest(newer: seq<Ref>, newest: Ref, oldest: Ref, ghost live: seq<nat>)
    returns (newer': seq<Ref>, oldest': Ref)
    requires (forall i | 0 <= i < |live| :: live[i] < |newer|) && newest == Last(live) && oldest == Head(live)
    ensures newer' == AddNewer(newer, live) && oldest' == Head(live + [|newer|])
  {
    newer', oldest' := newer + [NULL], oldest;
    if newest != NULL {
      newer' := newer'[newest := |newer|];
    } else {
      oldest' := |newer|;
    }
  }

  /** The neighbours of `t` are linked past it. */
  method LinkPast(newer: seq<Ref>, older: seq<Ref>, newest: Ref, oldest: Ref, t: nat, ghost live: seq<nat>,
                  ghost k: nat)
    returns (newer': seq<Ref>, older': seq<Ref>, newest': Ref, oldest': Ref)
    requires Linked2(newer, older, live) && k < |live| && live[k] == t && newest == Last(live) && oldest == Head(live)
    ensures newer' == RemoveNewer(newer, live, k) && older' == RemoveOlder(older, live, k)
    ensures newest' == Last(Without(live, k)) && oldest' == Head(Without(live, k))
  {
    newer', older', newest', oldest' := newer, older, newest, oldest;
    if newer[t] != NULL {
      older' := older[newer[t] := older[t]];
    } else {
      newest' := older[t];
    }
    if older[t] != NULL {
      newer' := newer[older[t] := newer[t]];
    } else {
      oldest' := newer[t];
    }
  }
}
