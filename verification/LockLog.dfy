/** Dependency locks as a history: every request ever made, in order of arrival.
    The lock table refines this history; the order theorems are proved here. */
module LockLog {

  datatype Status = Waiting | Granted | Released

  datatype Request<T, K> = Request(task: T, key: K, write: bool, status: Status)

  type Log<T, K> = seq<Request<T, K>>

  /** The two requests want one lock for different tasks, and one to write. */
  predicate Clash<T(==), K(==)>(a: Request<T, K>, b: Request<T, K>) {
    a.key == b.key && a.task != b.task && (a.write || b.write)
  }

  // ---- What the stub does under the mutex ----

  function Arrive<T, K>(log: Log<T, K>, task: T, key: K, write: bool): Log<T, K> {
    log + [Request(task, key, write, Waiting)]
  }

  /** No other task holds the lock in a conflicting mode, and none ahead in the
      queue wants it in one. */
  predicate MayGrant<T(==), K(==)>(log: Log<T, K>, i: nat) {
    i < |log| && log[i].status == Waiting &&
    (forall j | 0 <= j < |log| && log[j].status == Granted :: !Clash(log[j], log[i])) &&
    (forall j | 0 <= j < i && log[j].status == Waiting :: !Clash(log[j], log[i]))
  }

  function Grant<T, K>(log: Log<T, K>, i: nat): Log<T, K>
    requires i < |log|
  {
    log[i := log[i].(status := Granted)]
  }

  function ReleaseOne<T(==), K>(r: Request<T, K>, task: T): Request<T, K> {
    if r.task == task && r.status == Granted then r.(status := Released) else r
  }

  /** A completing task gives up everything it holds. */
  function Release<T(==), K>(log: Log<T, K>, task: T): (log': Log<T, K>)
    ensures |log'| == |log|
    ensures forall i | 0 <= i < |log| :: log'[i] == ReleaseOne(log[i], task)
  {
    seq(|log|, i requires 0 <= i < |log| => ReleaseOne(log[i], task))
  }

  ghost predicate Arrived<T, K>(log: Log<T, K>, log': Log<T, K>) {
    |log'| == |log| + 1 && var r := log'[|log|]; log' == Arrive(log, r.task, r.key, r.write)
  }

  ghost predicate Step<T, K>(log: Log<T, K>, log': Log<T, K>) {
    Arrived(log, log') ||
    (exists i :: MayGrant(log, i) && log' == Grant(log, i)) ||
    (exists j | 0 <= j < |log| :: log' == Release(log, log[j].task)) ||
    log' == log // a task that holds nothing completes
  }

  /** A run: any threads, any interleaving. */
  ghost predicate Run<T, K>(logs: seq<Log<T, K>>) {
    logs != [] && logs[0] == [] && forall i | 0 < i < |logs| :: Step(logs[i - 1], logs[i])
  }

  // ---- Order ----

  /** Of two clashing requests the later one is granted only after the earlier
      one's task has completed. */
  predicate FirstComeFirst<T(==), K(==)>(log: Log<T, K>) {
    forall i, j | 0 <= i < j < |log| && Clash(log[i], log[j]) && log[j].status != Waiting ::
      log[i].status == Released
  }

  /** Nobody shares a lock with another task's writer. */
  predicate Exclusive<T(==), K(==)>(log: Log<T, K>) {
    forall i, j | 0 <= i < |log| && 0 <= j < |log| && log[i].status == Granted && log[j].status == Granted ::
      !Clash(log[i], log[j])
  }

  lemma StepKeepsOrder<T, K>(log: Log<T, K>, log': Log<T, K>)
    requires FirstComeFirst(log) && Step(log, log')
    ensures FirstComeFirst(log')
  {
    forall i, j | 0 <= i < j < |log'| && Clash(log'[i], log'[j]) && log'[j].status != Waiting
      ensures log'[i].status == Released
    {
      assert j < |log| && Clash(log[i], log[j]);
    }
  }

  /** In every reachable state the order holds and writers are alone. */
  lemma {:induction false} OrderOverRuns<T, K>(logs: seq<Log<T, K>>, n: nat)
    requires Run(logs) && n < |logs|
    ensures FirstComeFirst(logs[n])
    ensures forall i, j | 0 <= i < j < |logs[n]| && logs[n][i].key == logs[n][j].key &&
                          logs[n][i].task != logs[n][j].task && (logs[n][i].write || logs[n][j].write) ::
              logs[n][j].status == Waiting || logs[n][i].status == Released
    ensures forall i, j | 0 <= i < |logs[n]| && 0 <= j < |logs[n]| && logs[n][i].status == Granted &&
                          logs[n][j].status == Granted && logs[n][i].key == logs[n][j].key && logs[n][i].write ::
              logs[n][j].task == logs[n][i].task
  {
    if n > 0 {
      OrderOverRuns(logs, n - 1);
      StepKeepsOrder(logs[n - 1], logs[n]);
    }
    OrderMakesExclusive(logs[n]);
  }

  lemma OrderMakesExclusive<T, K>(log: Log<T, K>)
    requires FirstComeFirst(log)
    ensures Exclusive(log)
  {
  }

  // ---- Waiting ends ----

  /** What a waiting request waits for: earlier clashing requests of tasks that
      have not completed. */
  function Blockers<T(==), K(==)>(log: Log<T, K>, i: nat): set<nat>
    requires i < |log|
  {
    set j: nat | j < i && log[j].status != Released && Clash(log[j], log[i])
  }

  /** The counts, the walk over the holders and the walk over the queue together
      decide exactly whether nothing earlier is in the way. */
  lemma GrantableIffUnblocked<T, K>(log: Log<T, K>, i: nat)
    requires FirstComeFirst(log) && i < |log| && log[i].status == Waiting
    ensures MayGrant(log, i) <==> Blockers(log, i) == {}
    ensures MayGrant(log, i) <==>
              forall j | 0 <= j < i && log[j].key == log[i].key && log[j].task != log[i].task &&
                         (log[j].write || log[i].write) :: log[j].status == Released
  {
    if Blockers(log, i) == {} {
      forall j | 0 <= j < |log| && (log[j].status == Granted || (j < i && log[j].status == Waiting))
        ensures !Clash(log[j], log[i])
      {
        if j < i {
          assert j !in Blockers(log, i);
        } else {
          assert Clash(log[j], log[i]) <==> Clash(log[i], log[j]);
        }
      }
    }
    if j :| j in Blockers(log, i) {
      assert Clash(log[j], log[i]);
    }
  }

  /** Nothing that happens adds to what a waiting request waits for, so readers
      arriving later never hold up a writer. */
  lemma BlockersNeverGrow<T, K>(log: Log<T, K>, log': Log<T, K>, i: nat)
    requires Step(log, log') && i < |log|
    ensures i < |log'| && Blockers(log', i) <= Blockers(log, i)
  {
  }

  lemma {:induction false} BlockersOverRuns<T, K>(logs: seq<Log<T, K>>, i: nat, a: nat, b: nat)
    requires Run(logs) && a <= b < |logs| && i < |logs[a]|
    ensures i < |logs[b]| && Blockers(logs[b], i) <= Blockers(logs[a], i)
    decreases b - a
  {
    if a < b {
      BlockersNeverGrow(logs[a], logs[a + 1], i);
      BlockersOverRuns(logs, i, a + 1, b);
    }
  }

  /** Each completion of a task waited for shrinks what is waited for; that many
      completions end the wait. */
  lemma CompletionUnblocks<T, K>(log: Log<T, K>, i: nat, j: nat)
    requires i < |log| && j in Blockers(log, i) && log[j].status == Granted
    ensures Blockers(Release(log, log[j].task), i) < Blockers(log, i)
  {
  }

  /** A request granted while a clashing one was already waiting came first. */
  lemma NoOvertaking<T, K>(log: Log<T, K>, i: nat, j: nat)
    requires FirstComeFirst(log) && i < |log| && log[i].status == Waiting && MayGrant(log, j)
    requires i != j && Clash(log[i], log[j])
    ensures j < i
  {
  }

  /** While a request waits, the oldest unfinished request for its lock is one
      that holds it or may be granted it now: a lock is never stuck by itself. */
  lemma OldestMoves<T, K>(log: Log<T, K>, i: nat, oldest: nat)
    requires FirstComeFirst(log) && i < |log| && log[i].status == Waiting
    requires oldest <= i && log[oldest].key == log[i].key && log[oldest].status != Released
    requires forall j | 0 <= j < oldest && log[j].key == log[i].key :: log[j].status == Released
    ensures log[oldest].status == Granted || MayGrant(log, oldest)
  {
  }

  // ---- Parts of a run ----

  /** Steps that lead from one history to another. */
  ghost predicate Leads<T, K>(logs: seq<Log<T, K>>, from: Log<T, K>, to: Log<T, K>) {
    logs != [] && logs[0] == from && logs[|logs| - 1] == to && forall i | 0 < i < |logs| :: Step(logs[i - 1], logs[i])
  }

  lemma LeadsNext<T, K>(logs: seq<Log<T, K>>, from: Log<T, K>, log: Log<T, K>, to: Log<T, K>)
    requires Leads(logs, from, log) && (Step(log, to) || to == log)
    ensures Leads(logs + [to], from, to)
  {
  }

  lemma LeadsThen<T, K>(a: seq<Log<T, K>>, b: seq<Log<T, K>>, from: Log<T, K>, mid: Log<T, K>, to: Log<T, K>)
    requires Leads(a, from, mid) && Leads(b, mid, to)
    ensures Leads(a + b, from, to)
  {
    assert Step(mid, mid);
  }

  /** Nobody else touches the requests of `t`. */
  predicate Untouched<T(==), K(==)>(log: Log<T, K>, log': Log<T, K>, t: T) {
    |log| <= |log'| && forall i | 0 <= i < |log| && log[i].task == t :: log'[i] == log[i]
  }
}
