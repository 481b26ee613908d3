/** The list of running tasks. A completed task leaves the list but keeps its own
    links, so that a walker standing on it still gets on; tasks complete once,
    and the counts the walk reports are the true ones. */
module RunningList {
  import opened Chains
  import opened DoubleList
  import opened Polling

  datatype State = Running | Succeeded | Failed

  /** The task records in order of creation, field by field. `annotated` tasks are
      the ones the counts are about. */
  datatype Tasks = Tasks(newer: seq<Ref>, older: seq<Ref>, state: seq<State>, result: seq<int>, annotated: seq<bool>)

  predicate Sized(T: Tasks) {
    |T.newer| == |T.older| == |T.state| == |T.result| == |T.annotated|
  }

  /** What the links a task left with still promise: the way to the next task
      never goes back and skips no running one; `leftAt` is how many tasks there
      were when each one left. */
  ghost predicate StaleAt(newer: seq<Ref>, live: seq<nat>, leftAt: seq<nat>, w: nat)
    requires w < |newer| == |leftAt|
  {
    leftAt[w] <= |newer| &&
    if newer[w] == NULL then
      forall x | x in live && x > w :: x >= leftAt[w]
    else
      w < newer[w] < |newer| && (forall x | x in live :: !(w < x < newer[w])) &&
      (newer[w] in live || leftAt[newer[w]] >= leftAt[w])
  }

  ghost predicate Stale(newer: seq<Ref>, live: seq<nat>, leftAt: seq<nat>) {
    |newer| == |leftAt| && forall w: nat | w < |newer| && w !in live :: StaleAt(newer, live, leftAt, w)
  }

  /** A running task is exactly one that is in the list. */
  predicate InList(T: Tasks, live: seq<nat>) {
    Sized(T) && forall t: nat | t < |T.state| :: T.state[t].Running? <==> t in live
  }

  // ---- Following the links ----

  /** From any task a walker can stand on, the next step goes strictly forward and
      over no running task that was there when the walk began. */
  lemma StepForward(newer: seq<Ref>, older: seq<Ref>, live: seq<nat>, leftAt: seq<nat>, start: nat, cur: nat)
    requires Linked2(newer, older, live) && Stale(newer, live, leftAt) && cur < |newer|
    requires cur in live || leftAt[cur] >= start
    ensures newer[cur] != NULL ==> cur < newer[cur] < |newer| && (newer[cur] in live || leftAt[newer[cur]] >= start)
    ensures forall x | x in live && cur < x < start :: newer[cur] != NULL && x >= newer[cur]
  {
    if cur in live {
      var i :| 0 <= i < |live| && live[i] == cur;
      assert newer[live[i]] == if i + 1 < |live| then live[i + 1] else NULL;
      forall x | x in live && cur < x
        ensures newer[cur] != NULL && x >= newer[cur]
      {
        var j :| 0 <= j < |live| && live[j] == x;
        assert i < j;
      }
    } else {
      assert StaleAt(newer, live, leftAt, cur);
    }
  }

  // ---- Adding and removing ----

  lemma StaleAdd(newer: seq<Ref>, older: seq<Ref>, live: seq<nat>, leftAt: seq<nat>)
    requires Linked2(newer, older, live) && Stale(newer, live, leftAt)
    ensures Stale(AddNewer(newer, live), live + [|newer|], leftAt + [0])
  {
  }

  lemma StaleRemove(newer: seq<Ref>, older: seq<Ref>, live: seq<nat>, leftAt: seq<nat>, k: nat)
    requires Linked2(newer, older, live) && Stale(newer, live, leftAt) && k < |live|
    ensures Stale(RemoveNewer(newer, live, k), Without(live, k), leftAt[live[k] := |newer|])
  {
    var newer', live', leftAt' := RemoveNewer(newer, live, k), Without(live, k), leftAt[live[k] := |newer|];
    AscendingDistinct(live);
    WithoutDistinct(live, k);
    forall w: nat | w < |newer'| && w !in live'
      ensures StaleAt(newer', live', leftAt', w)
    {
      if w == live[k] {
        assert newer[live[k]] == if k + 1 < |live| then live[k + 1] else NULL;
        forall x | x in live && x > w
          ensures k + 1 < |live| && x >= live[k + 1]
        {
          var j :| 0 <= j < |live| && live[j] == x;
          assert k < j;
        }
      } else {
        assert StaleAt(newer, live, leftAt, w);
        assert newer'[w] == newer[w];
      }
    }
  }

  // ---- The counts ----

  function Annotated(T: Tasks): set<nat>
    requires Sized(T)
  {
    set t: nat | t < |T.annotated| && T.annotated[t]
  }

  function Completed(T: Tasks): set<nat>
    requires Sized(T)
  {
    set t: nat | t < |T.annotated| && T.annotated[t] && !T.state[t].Running?
  }

  function FailedOnes(T: Tasks): set<nat>
    requires Sized(T)
  {
    set t: nat | t < |T.annotated| && T.annotated[t] && T.state[t].Failed?
  }

  datatype Stats = Stats(submitted: nat, completed: nat, failed: nat)

  ghost predicate Counted(T: Tasks, stats: Stats) {
    Sized(T) && stats == Stats(|Annotated(T)|, |Completed(T)|, |FailedOnes(T)|)
  }

  function Begun(T: Tasks, newer: seq<Ref>, older: seq<Ref>, annotated: bool): Tasks {
    Tasks(newer, older, T.state + [Running], T.result + [0], T.annotated + [annotated])
  }

  function BegunStats(stats: Stats, annotated: bool): Stats {
    if annotated then stats.(submitted := stats.submitted + 1) else stats
  }

  lemma BegunCounted(T: Tasks, stats: Stats, newer: seq<Ref>, older: seq<Ref>, annotated: bool)
    requires Counted(T, stats) && |newer| == |older| == |T.state| + 1
    ensures Counted(Begun(T, newer, older, annotated), BegunStats(stats, annotated))
  {
    BegunSets(T, newer, older, annotated);
    hide Annotated, Completed, FailedOnes;
  }

  lemma BegunSets(T: Tasks, newer: seq<Ref>, older: seq<Ref>, annotated: bool)
    requires Sized(T) && |newer| == |older| == |T.state| + 1
    ensures var T' := Begun(T, newer, older, annotated);
            Completed(T') == Completed(T) && FailedOnes(T') == FailedOnes(T) &&
            |T.state| !in Annotated(T) &&
            Annotated(T') == if annotated then Annotated(T) + {|T.state|} else Annotated(T)
  {
  }

  function Done(T: Tasks, newer: seq<Ref>, older: seq<Ref>, t: nat, result: int): Tasks
    requires Sized(T) && t < |T.state|
  {
    Tasks(newer, older, T.state[t := if result < 0 then Failed else Succeeded], T.result[t := result], T.annotated)
  }

  function DoneStats(T: Tasks, stats: Stats, t: nat, result: int): Stats
    requires Sized(T) && t < |T.state|
  {
    if T.annotated[t] then
      Stats(stats.submitted, stats.completed + 1, stats.failed + if result < 0 then 1 else 0)
    else
      stats
  }

  lemma DoneCounted(T: Tasks, stats: Stats, newer: seq<Ref>, older: seq<Ref>, t: nat, result: int)
    requires Counted(T, stats) && |newer| == |older| == |T.state| && t < |T.state| && T.state[t].Running?
    ensures Counted(Done(T, newer, older, t, result), DoneStats(T, stats, t, result))
  {
    DoneCompleted(T, newer, older, t, result);
    DoneFailed(T, newer, older, t, result);
    hide Annotated, Completed, FailedOnes;
  }

  lemma DoneCompleted(T: Tasks, newer: seq<Ref>, older: seq<Ref>, t: nat, result: int)
    requires Sized(T) && |newer| == |older| == |T.state| && t < |T.state| && T.state[t].Running?
    ensures Annotated(Done(T, newer, older, t, result)) == Annotated(T)
    ensures |Completed(Done(T, newer, older, t, result))| == |Completed(T)| + if T.annotated[t] then 1 else 0
  {
    var T' := Done(T, newer, older, t, result);
    if T.annotated[t] {
      assert Completed(T') == Completed(T) + {t};
    } else {
      assert Completed(T') == Completed(T);
    }
  }

  lemma DoneFailed(T: Tasks, newer: seq<Ref>, older: seq<Ref>, t: nat, result: int)
    requires Sized(T) && |newer| == |older| == |T.state| && t < |T.state| && T.state[t].Running?
    ensures |FailedOnes(Done(T, newer, older, t, result))| ==
            |FailedOnes(T)| + if T.annotated[t] && result < 0 then 1 else 0
  {
    var T' := Done(T, newer, older, t, result);
    if T.annotated[t] && result < 0 {
      assert FailedOnes(T') == FailedOnes(T) + {t};
    } else {
      assert FailedOnes(T') == FailedOnes(T);
    }
  }

  // ---- What time leaves in place ----

  /** Tasks complete once, and keep the first result. */
  ghost predicate Later(T: Tasks, leftAt: seq<nat>, T': Tasks, leftAt': seq<nat>) {
    Sized(T) && Sized(T') && |leftAt| == |T.state| <= |T'.state| == |leftAt'| &&
    forall t | 0 <= t < |T.state| ::
      (T'.state[t].Running? ==> T.state[t].Running?) && T'.annotated[t] == T.annotated[t] &&
      (!T.state[t].Running? ==> T'.state[t] == T.state[t] && T'.result[t] == T.result[t] && leftAt'[t] == leftAt[t]) &&
      (T.state[t].Running? && !T'.state[t].Running? ==> leftAt'[t] >= |T.state|)
  }

  lemma LaterSame(T: Tasks, leftAt: seq<nat>)
    requires Sized(T) && |leftAt| == |T.state|
    ensures Later(T, leftAt, T, leftAt)
  {
  }

  /** Answers stay, and a task with an answer completes with that answer. */
  ghost predicate Answering(T: Tasks, answered: map<nat, int>, T': Tasks, answered': map<nat, int>)
    requires Sized(T) && Sized(T') && |T.state| <= |T'.state|
  {
    forall t | t in answered ::
      t in answered' && answered'[t] == answered[t] &&
      (t < |T.state| && T.state[t].Running? && !T'.state[t].Running? ==> T'.result[t] == answered[t])
  }

  /** Both together. */
  ghost predicate Onward(T: Tasks, leftAt: seq<nat>, answered: map<nat, int>, T': Tasks, leftAt': seq<nat>,
                         answered': map<nat, int>) {
    Later(T, leftAt, T', leftAt') && Answering(T, answered, T', answered')
  }

  lemma OnwardSame(T: Tasks, leftAt: seq<nat>, answered: map<nat, int>)
    requires Sized(T) && |leftAt| == |T.state|
    ensures Onward(T, leftAt, answered, T, leftAt, answered)
  {
  }

  lemma OnwardThen(T: Tasks, leftAt: seq<nat>, answered: map<nat, int>, T1: Tasks, leftAt1: seq<nat>,
                   answered1: map<nat, int>, T2: Tasks, leftAt2: seq<nat>, answered2: map<nat, int>)
    requires Onward(T, leftAt, answered, T1, leftAt1, answered1) &&
             Onward(T1, leftAt1, answered1, T2, leftAt2, answered2)
    ensures Onward(T, leftAt, answered, T2, leftAt2, answered2)
  {
  }

  lemma OnwardLater(T: Tasks, leftAt: seq<nat>, answered: map<nat, int>, T': Tasks, leftAt': seq<nat>,
                    answered': map<nat, int>)
    requires Onward(T, leftAt, answered, T', leftAt', answered')
    ensures Later(T, leftAt, T', leftAt')
  {
  }

  /** What has been asked has been polled since `from`, with CHECK, and nothing else
      was done; and of the tasks that had an answer then it has left none running. */
  ghost predicate Asked(T: Tasks, answered0: map<nat, int>, from: nat, polls: seq<Poll>, asked: set<nat>) {
    from <= |polls| && (forall i | from <= i < |polls| :: polls[i].mode == CHECK) &&
    (forall t | t in asked :: Poll(t, CHECK) in polls[from..]) &&
    forall t | t in asked && t in answered0 :: t < |T.state| && !T.state[t].Running?
  }

  lemma AskedOne(T: Tasks, T': Tasks, leftAt: seq<nat>, leftAt': seq<nat>, answered0: map<nat, int>, from: nat,
                 polls: seq<Poll>, asked: set<nat>, t: nat)
    requires Asked(T, answered0, from, polls, asked) && Later(T, leftAt, T', leftAt')
    requires t in answered0 ==> t < |T'.state| && !T'.state[t].Running?
    ensures Asked(T', answered0, from, polls + [Poll(t, CHECK)], asked + {t})
  {
    var polls' := polls + [Poll(t, CHECK)];
    assert polls'[from..] == polls[from..] + [Poll(t, CHECK)];
  }

  /** A walker that began when there were `start` tasks stands on `cur`, or has
      come to the end: of the tasks running then and now, it has asked about the
      ones behind it. */
  ghost predicate WalkAt(T: Tasks, live: seq<nat>, leftAt: seq<nat>, start: nat, cur: Ref, asked: set<nat>) {
    Sized(T) && |leftAt| == |T.state| && start <= |T.state| && NULL <= cur < |T.state| &&
    (cur != NULL ==> cur in live || leftAt[cur] >= start) &&
    forall x | x in live && x < start && (cur == NULL || x < cur) :: x in asked
  }

  /** It has asked about `cur` too. */
  ghost predicate Standing(T: Tasks, live: seq<nat>, leftAt: seq<nat>, start: nat, cur: nat, asked: set<nat>) {
    WalkAt(T, live, leftAt, start, cur, asked) && (cur in live && cur < start ==> cur in asked)
  }

  lemma WalkHere(T: Tasks, live: seq<nat>, leftAt: seq<nat>, start: nat, cur: Ref, asked: set<nat>)
    requires WalkAt(T, live, leftAt, start, cur, asked) && cur != NULL
    ensures 0 <= cur < |T.state| == |leftAt| && Sized(T) && start <= |T.state|
    ensures InList(T, live) && !T.state[cur].Running? ==> Standing(T, live, leftAt, start, cur, asked)
  {
  }

  lemma WalkAsked(T: Tasks, live: seq<nat>, leftAt: seq<nat>, start: nat, cur: nat, asked: set<nat>)
    requires WalkAt(T, live, leftAt, start, cur, asked)
    ensures Standing(T, live, leftAt, start, cur, asked + {cur})
  {
  }

  class RunningList {
    var T: Tasks
    var newest: Ref
    var oldest: Ref
    var stats: Stats
    ghost var live: seq<nat>
    ghost var leftAt: seq<nat>
    /** The answers the runtimes have, whether or not anyone has asked for them. */
    var answered: map<nat, int>
    /** What this thread has asked. */
    ghost var polls: seq<Poll>

    ghost predicate Valid()
      reads this
    {
      Linked2(T.newer, T.older, live) && Stale(T.newer, live, leftAt) && InList(T, live) && Counted(T, stats) &&
      newest == Last(live) && oldest == Head(live)
    }

    constructor ()
      ensures Valid() && T.state == []
    {
      T, newest, oldest, stats := Tasks([], [], [], [], []), NULL, NULL, Stats(0, 0, 0);
      live, leftAt, answered, polls := [], [], map[], [];
    }

    /** A new task at the end of the list. */
    method Begin(annotated: bool) returns (t: nat)
      requires Valid()
      modifies this`T, this`newest, this`oldest, this`stats, this`live, this`leftAt
      ensures Valid() && Later(old(T), old(leftAt), T, leftAt)
      ensures t == |old(T).state| && |T.state| == t + 1 && T.state[t].Running? && live == old(live) + [t]
      ensures T.annotated == old(T).annotated + [annotated]
    {
      hide Linked2, Stale, InList, Counted, Later, AddNewer, Head, Last, Begun, BegunStats, Sized;
      BeginKeeps(annotated);
      t := |T.newer|;
      var newer, first := LinkNewest(T.newer, newest, oldest, live);
      T := Begun(T, newer, T.older + [newest], annotated);
      newest, oldest, stats := t, first, BegunStats(stats, annotated);
      live, leftAt := live + [t], leftAt + [0];
    }

    lemma BeginKeeps(annotated: bool)
      requires Valid()
      ensures (forall i | 0 <= i < |live| :: live[i] < |T.newer|) && |T.newer| == |T.state|
      ensures var t, newer, older := |T.newer|, AddNewer(T.newer, live), T.older + [newest];
              var T' := Begun(T, newer, older, annotated);
              Linked2(T'.newer, T'.older, live + [t]) && Stale(T'.newer, live + [t], leftAt + [0]) &&
              InList(T', live + [t]) &&
              Counted(T', BegunStats(stats, annotated)) && Later(T, leftAt, T', leftAt + [0]) &&
              Last(live + [t]) == t && T'.state == T.state + [Running] && T'.annotated == T.annotated + [annotated]
    {
      Shape();
      LinkedAdd(T.newer, T.older, live);
      StaleAdd(T.newer, T.older, live, leftAt);
      BegunCounted(T, stats, AddNewer(T.newer, live), T.older + [newest], annotated);
      InListAdd(T, live, AddNewer(T.newer, live), T.older + [newest], annotated, leftAt);
      LastAdded(live, |T.newer|);
      BegunLinks(T, AddNewer(T.newer, live), T.older + [newest], annotated);
      hide Linked2, Stale, InList, Counted, Later, AddNewer, Last, Begun, BegunStats;
    }

    /** A task completes: the first time it is given its result and leaves the
        list, after that nothing happens. */
    method Complete(t: nat, result: int)
      requires Valid() && t < |T.state|
      modifies this`T, this`newest, this`oldest, this`stats, this`live, this`leftAt
      ensures Valid() && Later(old(T), old(leftAt), T, leftAt) && |T.state| == |old(T).state|
      ensures old(T).state[t].Running? ==> T.result[t] == result && T.state[t] == if result < 0 then Failed
              else Succeeded
      ensures !old(T).state[t].Running? ==> T == old(T) && stats == old(stats) && live == old(live)
      ensures forall u :: u in live <==> u in old(live) && u != t
    {
      Shape();
      LaterSame(T, leftAt);
      if !T.state[t].Running? {
        return;
      }
      ghost var k :| 0 <= k < |live| && live[k] == t;
      LinkedRemove2(T.newer, T.older, live, k);
      StaleRemove(T.newer, T.older, live, leftAt, k);
      DoneCounted(T, stats, RemoveNewer(T.newer, live, k), RemoveOlder(T.older, live, k), t, result);
      InListRemove(T, live, k, RemoveNewer(T.newer, live, k), RemoveOlder(T.older, live, k), result, leftAt);
      Unlink2(t, k, result);
    }

    method Unlink2(t: nat, ghost k: nat, result: int)
      requires Linked2(T.newer, T.older, live) && Sized(T) && newest == Last(live) && oldest == Head(live)
      requires k < |live| && live[k] == t && t < |T.state| == |leftAt| &&
               forall i | 0 <= i < |live| :: live[i] < |T.newer|
      requires var newer, older, live' := RemoveNewer(T.newer, live, k), RemoveOlder(T.older, live, k),
               Without(live, k);
               var T', leftAt' := Done(T, newer, older, t, result), leftAt[t := |T.newer|];
               Linked2(newer, older, live') && Stale(newer, live', leftAt') &&
               Counted(T', DoneStats(T, stats, t, result)) &&
               InList(T', live')
      modifies this`T, this`newest, this`oldest, this`stats, this`live, this`leftAt
      ensures Valid() && live == Without(old(live), k) && leftAt == old(leftAt)[t := |old(T).newer|]
      ensures T == Done(old(T), RemoveNewer(old(T).newer, old(live), k), RemoveOlder(old(T).older, old(live), k), t,
                        result)
    {
      hide Linked2, Stale, InList, Counted, RemoveNewer, RemoveOlder, Head, Last, Done, DoneStats;
      DoneLinks(T, RemoveNewer(T.newer, live, k), RemoveOlder(T.older, live, k), t, result);
      var newer, older, last, first := LinkPast(T.newer, T.older, newest, oldest, t, live, k);
      newest, oldest, stats := last, first, DoneStats(T, stats, t, result);
      leftAt := leftAt[t := |T.newer|];
      T := Done(T, newer, older, t, result);
      live := Without(live, k);
    }

    lemma Shape()
      requires Valid()
      ensures Sized(T) && |leftAt| == |T.state| && (live != [] ==> live[|live| - 1] < |T.newer| && live[0] < |T.newer|)
      ensures forall t: nat | t < |T.state| :: T.state[t].Running? <==> t in live
      ensures forall i | 0 <= i < |live| :: live[i] < |T.newer|
    {
    }

    /** What happens while the mutex is released: tasks begin, at most `budget` of
        them, answers come, and tasks complete with theirs. */
    method Others(budget: nat) returns (left: nat)
      requires Valid()
      modifies this`T, this`newest, this`oldest, this`stats, this`live, this`leftAt, this`answered
      ensures Valid() && Onward(old(T), old(leftAt), old(answered), T, leftAt, answered)
      ensures |T.state| + left == |old(T).state| + budget
    {
      ghost var T0, leftAt0, answered0 := T, leftAt, answered;
      Shape();
      OnwardSame(T, leftAt, answered);
      left := budget;
      var steps: nat := *;
      hide Valid, Onward;
      while steps > 0
        invariant Valid() && Onward(T0, leftAt0, answered0, T, leftAt, answered)
        invariant |T.state| + left == |T0.state| + budget
      {
        ghost var T1, leftAt1, answered1 := T, leftAt, answered;
        var begins: bool, t: nat, annotated: bool, result: int := *, *, *, *;
        if begins && left > 0 {
          Starts(annotated);
          left := left - 1;
          OnwardThen(T0, leftAt0, answered0, T1, leftAt1, answered1, T, leftAt, answered);
        } else if t < |T.state| {
          Answer(t, result);
          OnwardThen(T0, leftAt0, answered0, T1, leftAt1, answered1, T, leftAt, answered);
        }
        steps := steps - 1;
      }
    }

    method Starts(annotated: bool)
      requires Valid()
      modifies this`T, this`newest, this`oldest, this`stats, this`live, this`leftAt
      ensures Valid() && Onward(old(T), old(leftAt), old(answered), T, leftAt, answered)
      ensures |T.state| == |old(T).state| + 1
    {
      Shape();
      hide Valid, Linked2, Stale, InList, Counted;
      var t := Begin(annotated);
      Shape();
    }

    /** An answer comes, and the task completes with it, if not before. */
    method Answer(t: nat, result: int)
      requires Valid() && t < |T.state|
      modifies this`T, this`newest, this`oldest, this`stats, this`live, this`leftAt, this`answered
      ensures Valid() && Onward(old(T), old(leftAt), old(answered), T, leftAt, answered)
      ensures |T.state| == |old(T).state| && t in answered
    {
      Shape();
      OnwardSame(T, leftAt, answered);
      var completes: bool := *;
      if t !in answered {
        answered := answered[t := result];
      }
      if completes {
        Completes(t);
      }
    }

    /** A task completes with its answer. */
    method Completes(t: nat)
      requires Valid() && t < |T.state| && t in answered
      modifies this`T, this`newest, this`oldest, this`stats, this`live, this`leftAt
      ensures Valid() && Onward(old(T), old(leftAt), old(answered), T, leftAt, answered)
      ensures |T.state| == |old(T).state| && !T.state[t].Running?
    {
      Shape();
      ghost var live0 := live;
      Complete(t, answered[t]);
      Shape();
      hide Valid, Linked2, Stale, Counted;
    }

    /** The runtime is asked about a task: it completes the task if it has an answer,
        and waits for one with BLOCK. */
    method Ask(t: nat, mode: Mode, budget: nat) returns (left: nat)
      requires Valid() && t < |T.state|
      modifies this
      ensures Valid() && Onward(old(T), old(leftAt), old(answered), T, leftAt, answered)
      ensures |T.state| + left == |old(T).state| + budget && t < |T.state|
      ensures t in old(answered) || mode == BLOCK ==> !T.state[t].Running?
      ensures polls == old(polls) + [Poll(t, mode)]
    {
      hide Valid, Onward;
      ghost var T0, leftAt0, answered0 := T, leftAt, answered;
      Note(t, mode);
      left := Others(budget);
      AnswersStay(T0, leftAt0, answered0);
      if mode == BLOCK && t !in answered {
        var result: int := *;
        ghost var T1, leftAt1, answered1 := T, leftAt, answered;
        Answer(t, result);
        OnwardThen(T0, leftAt0, answered0, T1, leftAt1, answered1, T, leftAt, answered);
      }
      ghost var T1, leftAt1, answered1 := T, leftAt, answered;
      if t in answered {
        Completes(t);
        OnwardThen(T0, leftAt0, answered0, T1, leftAt1, answered1, T, leftAt, answered);
      }
    }

    ghost method Note(t: nat, mode: Mode)
      requires Valid()
      modifies this`polls
      ensures Valid() && polls == old(polls) + [Poll(t, mode)]
    {
      polls := polls + [Poll(t, mode)];
    }

    /** Asks about every task still running, without waiting, walking the list while
        it changes. What has an answer when the walk begins is not running when it
        ends, and counted. */
    method GetStats(budget: nat) returns (out: Stats)
      requires Valid()
      modifies this
      ensures Valid() && Onward(old(T), old(leftAt), old(answered), T, leftAt, answered)
      ensures Sized(T) && out.submitted == |set t: nat | t < |T.annotated| && T.annotated[t]|
      ensures out.completed == |set t: nat | t < |T.annotated| && T.annotated[t] && !T.state[t].Running?|
      ensures out.failed == |set t: nat | t < |T.annotated| && T.annotated[t] && T.state[t].Failed?|
      ensures old(polls) <= polls && forall i | |old(polls)| <= i < |polls| :: polls[i].mode == CHECK
      ensures forall t | 0 <= t < |old(T).state| && old(T).state[t].Running? && t in old(answered) ::
                !T.state[t].Running? && T.result[t] == old(answered)[t]
      ensures forall t | 0 <= t < |old(T).state| && old(T).state[t].Running? && T.state[t].Running? ::
                Poll(t, CHECK) in polls[|old(polls)|..]
    {
      ghost var T0, leftAt0, answered0, polls0 := T, leftAt, answered, polls;
      ghost var start := |T.state|;
      Shape();
      OnwardSame(T, leftAt, answered);
      ghost var asked: set<nat> := {};
      var cur, left := oldest, budget;
      WalkStarts(start);
      hide Valid, Onward, WalkAt, Standing, Counted, InList, Asked;
      assert Asked(T, answered0, |polls0|, polls, asked) by {
        NothingAsked(T, answered0, polls);
      }
      while cur != NULL
        invariant Valid() && Onward(T0, leftAt0, answered0, T, leftAt, answered)
        invariant WalkAt(T, live, leftAt, start, cur, asked) && Asked(T, answered0, |polls0|, polls, asked)
        invariant start == |T0.state| && cur < |T.state| && polls0 <= polls
        decreases if cur == NULL then 0 else |T.state| + left - cur
      {
        cur, left, asked := Visit(T0, leftAt0, answered0, |polls0|, start, cur, left, asked);
      }
      out := stats;
      WalkEnds(T0, leftAt0, answered0, |polls0|, start, asked);
    }

    /** One task of the walk: it is asked if it still runs, with the mutex
        released, and then followed by the next. */
    method Visit(ghost T0: Tasks, ghost leftAt0: seq<nat>, ghost answered0: map<nat, int>, ghost from: nat,
                 ghost start: nat, cur: Ref, budget: nat, ghost asked0: set<nat>)
      returns (next: Ref, left: nat, ghost asked: set<nat>)
      requires Valid() && WalkAt(T, live, leftAt, start, cur, asked0) && cur != NULL
      requires Onward(T0, leftAt0, answered0, T, leftAt, answered) && Asked(T, answered0, from, polls, asked0)
      modifies this
      ensures Valid() && |T.state| + left == |old(T).state| + budget && old(polls) <= polls
      ensures Onward(T0, leftAt0, answered0, T, leftAt, answered) && Asked(T, answered0, from, polls, asked)
      ensures WalkAt(T, live, leftAt, start, next, asked) && (next != NULL ==> cur < next < |T.state|) &&
              0 <= cur < |T.state|
    {
      InListHere();
      WalkHere(T, live, leftAt, start, cur, asked0);
      hide Valid, Onward, WalkAt, Standing, InList, Asked;
      left, asked := budget, asked0;
      if T.state[cur].Running? {
        WalkAsked(T, live, leftAt, start, cur, asked);
        ghost var here: nat := cur;
        asked := asked + {here};
        ghost var T1, live1, leftAt1, answered1 := T, live, leftAt, answered;
        AnswersStay(T0, leftAt0, answered0);
        left := Ask(cur, CHECK, left);
        OnwardLater(T1, leftAt1, answered1, T, leftAt, answered);
        WalkLater(T1, live1, leftAt1, start, cur, asked);
        AskedOne(T1, T, leftAt1, leftAt, answered0, from, old(polls), asked0, cur);
        OnwardThen(T0, leftAt0, answered0, T1, leftAt1, answered1, T, leftAt, answered);
      }
      WalkOn(start, cur, asked);
      next := T.newer[cur];
    }

    lemma AnswersStay(T0: Tasks, leftAt0: seq<nat>, answered0: map<nat, int>)
      requires Onward(T0, leftAt0, answered0, T, leftAt, answered)
      ensures forall t | t in answered0 :: t in answered
      ensures |T0.state| <= |T.state|
    {
    }

    lemma InListHere()
      requires Valid()
      ensures InList(T, live)
    {
    }

    lemma WalkStarts(start: nat)
      requires Valid() && start == |T.state|
      ensures WalkAt(T, live, leftAt, start, oldest, {}) && Counted(T, stats) && NULL <= oldest < |T.state|
    {
    }

    lemma WalkOn(start: nat, cur: nat, asked: set<nat>)
      requires Valid() && Standing(T, live, leftAt, start, cur, asked)
      ensures cur < |T.newer| && WalkAt(T, live, leftAt, start, T.newer[cur], asked)
      ensures T.newer[cur] != NULL ==> cur < T.newer[cur] < |T.newer|
      ensures |T.newer| == |T.state|
    {
      StepForward(T.newer, T.older, live, leftAt, start, cur);
    }

    lemma WalkLater(T1: Tasks, live1: seq<nat>, leftAt1: seq<nat>, start: nat, cur: nat, asked: set<nat>)
      requires Valid() && Later(T1, leftAt1, T, leftAt) && InList(T1, live1)
      requires Standing(T1, live1, leftAt1, start, cur, asked) && start <= |T1.state|
      ensures Standing(T, live, leftAt, start, cur, asked)
    {
      Shape();
      forall x | x in live && x < start
        ensures x in live1
      {
        assert T.state[x].Running? && T1.state[x].Running?;
      }
    }

    lemma WalkEnds(T0: Tasks, leftAt0: seq<nat>, answered0: map<nat, int>, from: nat, start: nat, asked: set<nat>)
      requires Valid() && Onward(T0, leftAt0, answered0, T, leftAt, answered)
      requires WalkAt(T, live, leftAt, start, NULL, asked) && start == |T0.state|
      requires Asked(T, answered0, from, polls, asked)
      ensures Counted(T, stats) && |T0.state| <= |T.state| == |T.result|
      ensures Sized(T) && stats.submitted == |set t: nat | t < |T.annotated| && T.annotated[t]|
      ensures stats.completed == |set t: nat | t < |T.annotated| && T.annotated[t] && !T.state[t].Running?|
      ensures stats.failed == |set t: nat | t < |T.annotated| && T.annotated[t] && T.state[t].Failed?|
      ensures forall t | 0 <= t < |T0.state| && T0.state[t].Running? && T.state[t].Running? ::
                Poll(t, CHECK) in polls[from..]
      ensures forall t | 0 <= t < |T0.state| && T0.state[t].Running? && t in answered0 ::
                !T.state[t].Running? && T.result[t] == answered0[t]
      ensures from <= |polls| && forall i | from <= i < |polls| :: polls[i].mode == CHECK
    {
      Shape();
    }
  }

  lemma NothingAsked(T: Tasks, answered: map<nat, int>, polls: seq<Poll>)
    ensures Asked(T, answered, |polls|, polls, {})
  {
  }

  lemma LastAdded(live: seq<nat>, t: nat)
    ensures Last(live + [t]) == t
  {
  }

  lemma BegunLinks(T: Tasks, newer: seq<Ref>, older: seq<Ref>, annotated: bool)
    ensures Begun(T, newer, older, annotated).newer == newer && Begun(T, newer, older, annotated).older == older
    ensures Begun(T, newer, older, annotated).state == T.state + [Running]
    ensures Begun(T, newer, older, annotated).annotated == T.annotated + [annotated]
  {
  }

  lemma DoneLinks(T: Tasks, newer: seq<Ref>, older: seq<Ref>, t: nat, result: int)
    requires Sized(T) && t < |T.state|
    ensures Done(T, newer, older, t, result).newer == newer && Done(T, newer, older, t, result).older == older
  {
  }

  lemma InListAdd(T: Tasks, live: seq<nat>, newer: seq<Ref>, older: seq<Ref>, annotated: bool, leftAt: seq<nat>)
    requires InList(T, live) && |newer| == |older| == |T.state| + 1 && |leftAt| == |T.state|
    requires forall t | t in live :: t < |T.state|
    ensures InList(Begun(T, newer, older, annotated), live + [|T.state|])
    ensures Later(T, leftAt, Begun(T, newer, older, annotated), leftAt + [0])
  {
  }

  lemma InListRemove(T: Tasks, live: seq<nat>, k: nat, newer: seq<Ref>, older: seq<Ref>, result: int, leftAt: seq<nat>)
    requires InList(T, live) && |newer| == |older| == |T.state| && |leftAt| == |T.state|
    requires Distinct(live) && k < |live| && live[k] < |T.state|
    ensures T.state[live[k]].Running?
    ensures InList(Done(T, newer, older, live[k], result), Without(live, k))
    ensures Later(T, leftAt, Done(T, newer, older, live[k], result), leftAt[live[k] := |T.newer|])
    ensures forall u :: u in Without(live, k) <==> u in live && u != live[k]
  {
  }
}
