/** The history of requests: when each was queued and when its answer arrived. A
    request is known by its allocation, as its slot and its id are used again. */
module RequestLog {
  import opened RequestTable

  datatype Event = Pushed(call: nat) | Settled(call: nat)

  /** The request table, as far as calls are concerned: its slots, which
      allocation each was last given to, and the slot each allocation got. */
  datatype Calls = Calls(S: Slots, which: seq<nat>, given: seq<nat>)

  /** Allocation `c` is still a request the kernel has not answered. */
  predicate Unfinished(C: Calls, c: nat) {
    c < |C.given| && Sized(C.S) && |C.which| == SLOTS && C.given[c] < SLOTS && C.S.state[C.given[c]].PENDING? &&
    C.which[C.given[c]] == c
  }

  /** Every allocation was queued once, and then settled once if it is not
      unfinished; nothing else happened. */
  ghost predicate Logged(log: seq<Event>, C: Calls) {
    (forall i, j | 0 <= i < j < |log| :: log[i] != log[j]) &&
    (forall i | 0 <= i < |log| :: log[i].call < |C.given|) &&
    (forall c: nat | c < |C.given| :: Pushed(c) in log && (Settled(c) in log <==> !Unfinished(C, c))) &&
    forall i, j | 0 <= i < |log| && 0 <= j < |log| && log[i].Settled? && log[j] == Pushed(log[i].call) :: j < i
  }

  /** `a` was settled before `b` was queued. */
  ghost predicate SettledFirst(log: seq<Event>, a: nat, b: nat) {
    exists i, j :: 0 <= i < j < |log| && log[i] == Settled(a) && log[j] == Pushed(b)
  }

  function EventAt(i: nat): Event {
    if i % 2 == 0 then Pushed(i / 2) else Settled(i / 2)
  }

  lemma EventsApart(i: nat, j: nat)
    requires i < j
    ensures EventAt(i) != EventAt(j)
    ensures EventAt(j) != Pushed(EventAt(i).call)
  {
  }

  lemma EventsOf(c: nat)
    ensures EventAt(2 * c) == Pushed(c) && EventAt(2 * c + 1) == Settled(c)
  {
  }

  function Past(n: nat): (log: seq<Event>)
    ensures |log| == 2 * n && forall i | 0 <= i < 2 * n :: log[i] == EventAt(i)
  {
    seq(2 * n, i requires 0 <= i => EventAt(i))
  }

  lemma PastApart(n: nat)
    ensures forall i, j | 0 <= i < j < 2 * n ::
              Past(n)[i] != Past(n)[j] && (Past(n)[i].Settled? ==> Past(n)[j] != Pushed(Past(n)[i].call))
  {
    forall i, j | 0 <= i < j < 2 * n
      ensures Past(n)[i] != Past(n)[j] && (Past(n)[i].Settled? ==> Past(n)[j] != Pushed(Past(n)[i].call))
    {
      EventsApart(i, j);
      hide EventAt;
    }
  }

  lemma PastHas(n: nat)
    ensures forall i | 0 <= i < 2 * n :: Past(n)[i].call < n
    ensures forall c: nat | c < n :: Pushed(c) in Past(n) && Settled(c) in Past(n)
  {
    forall c: nat | c < n
      ensures Pushed(c) in Past(n) && Settled(c) in Past(n)
    {
      EventsOf(c);
      assert Past(n)[2 * c] == Pushed(c) && Past(n)[2 * c + 1] == Settled(c);
    }
  }

  /** A history for a table whose requests are all over. */
  lemma PastLogged(C: Calls)
    requires Sized(C.S) && forall s | 0 <= s < SLOTS :: C.S.state[s].FREE?
    ensures Logged(Past(|C.given|), C)
  {
    PastApart(|C.given|);
    PastHas(|C.given|);
    hide EventAt, Past;
  }

  lemma LoggedPush(log: seq<Event>, C: Calls, C': Calls, s: nat)
    requires Logged(log, C) && Sized(C.S) && Sized(C'.S) && |C.which| == SLOTS && s < SLOTS && C.S.state[s].FREE?
    requires C' == Calls(C'.S, C.which[s := |C.given|], C.given + [s]) && C'.S.state == C.S.state[s := PENDING]
    ensures Logged(log + [Pushed(|C.given|)], C')
  {
    var log', n := log + [Pushed(|C.given|)], |C.given|;
    assert log'[|log|] == Pushed(n);
    assert forall e :: e in log' <==> e in log || e == Pushed(n);
    forall c: nat | c < n
      ensures Unfinished(C', c) <==> Unfinished(C, c)
    {
    }
  }

  lemma LoggedSettle(log: seq<Event>, C: Calls, S': Slots, s: nat)
    requires Logged(log, C) && Sized(C.S) && Sized(S') && |C.which| == SLOTS && s < SLOTS && C.S.state[s].PENDING?
    requires S'.state == C.S.state[s := S'.state[s]] && !S'.state[s].PENDING?
    requires C.which[s] < |C.given| && C.given[C.which[s]] == s
    ensures Logged(log + [Settled(C.which[s])], C.(S := S'))
  {
    var log', c := log + [Settled(C.which[s])], C.which[s];
    assert log'[|log|] == Settled(c);
    assert forall e :: e in log' <==> e in log || e == Settled(c);
    assert Unfinished(C, c);
    forall d: nat | d < |C.given| && d != c
      ensures Unfinished(C.(S := S'), d) <==> Unfinished(C, d)
    {
    }
  }

  lemma LoggedRelease(log: seq<Event>, C: Calls, S': Slots, s: nat)
    requires Logged(log, C) && Sized(C.S) && Sized(S') && s < SLOTS && !C.S.state[s].PENDING?
    requires S'.state == C.S.state[s := FREE]
    ensures Logged(log, C.(S := S'))
  {
    forall c: nat | c < |C.given|
      ensures Unfinished(C.(S := S'), c) <==> Unfinished(C, c)
    {
    }
  }

  /** What has finished before a request is queued was settled first. */
  lemma SettledBefore(log: seq<Event>, C: Calls, a: nat, log': seq<Event>)
    requires Logged(log, C) && a < |C.given| && !Unfinished(C, a)
    requires log + [Pushed(|C.given|)] <= log'
    ensures SettledFirst(log', a, |C.given|)
  {
    var i :| 0 <= i < |log| && log[i] == Settled(a);
    assert log'[i] == Settled(a) && log'[|log|] == Pushed(|C.given|);
  }

  lemma SettledFirstStays(log: seq<Event>, log': seq<Event>, a: nat, b: nat)
    requires SettledFirst(log, a, b) && log <= log'
    ensures SettledFirst(log', a, b)
  {
    var i, j :| 0 <= i < j < |log| && log[i] == Settled(a) && log[j] == Pushed(b);
    assert log'[i] == Settled(a) && log'[j] == Pushed(b);
  }
}
