/** Every run of the task queue, crashes and restarts included. */
module TaskQueueRuns {
  import opened Models
  import opened TaskQueues

  // ── invariant ───────────────────────────────────────────

  ghost predicate Ascending(s: seq<nat>) {
    forall i, j :: 0 <= i < j < |s| ==> s[i] < s[j]
  }

  predicate Waits(table: seq<Task>, key: string, tid: nat) {
    tid < |table| && table[tid].key == key && table[tid].status.Pending?
  }

  /** These are the pending rows of the key, oldest first. */
  ghost predicate Holds(table: seq<Task>, key: string, s: seq<nat>) {
    Ascending(s) && forall i :: i in s <==> Waits(table, key, i)
  }

  /** The keys of a dict. */
  ghost predicate DistinctOrder(d: Dict) {
    forall i, j :: 0 <= i < j < |d.order| ==> d.order[i] != d.order[j]
  }

  /** Each queue holds the pending rows of its key, oldest first. */
  ghost predicate QueuesMatch(table: seq<Task>, d: Dict) {
    && DistinctOrder(d)
    && (forall k :: k in d.order <==> k in d.queues)
    && (forall k :: Holds(table, k, QueueOf(d, k)))
  }

  /** At most one row is running and, while the process is up, it is the one the consumer holds. */
  ghost predicate RunningMatch(table: seq<Task>, up: bool, c: Consumer) {
    && (c.Holding? ==> up && c.tid < |table| && table[c.tid].status.Running?)
    && (up ==> forall i :: 0 <= i < |table| && table[i].status.Running? ==> c == Holding(i))
    && (forall i, j :: 0 <= i < |table| && 0 <= j < |table| ==>
          (table[i].status.Running? && table[j].status.Running? ==> i == j))
  }

  ghost predicate AllEmpty(d: Dict) {
    forall k :: QueueOf(d, k) == []
  }

  ghost predicate NoLostWakeup(q: Queues) {
    q.up && q.consumer.Parked? && !q.flag ==> q.unset > 0 || AllEmpty(q.dict)
  }

  predicate Over(s: TaskStatus) { s.Finished? || s.Dropped? }

  /** 1 if the latest dispatch of the task was not cut short by a crash. */
  function Counted(t: Task, up: bool): nat {
    if Over(t.status) || (up && t.status.Running?) then 1 else 0
  }

  /** A task was dispatched once for each crash it was running at, and once more if it got further. */
  ghost predicate LogMatch(table: seq<Task>, up: bool, log: seq<nat>, lost: seq<nat>) {
    && (forall a :: 0 <= a < |log| ==> log[a] < |table|)
    && (forall a :: 0 <= a < |lost| ==> lost[a] < |table|)
    && (forall i :: 0 <= i < |table| ==> multiset(log)[i] == multiset(lost)[i] + Counted(table[i], up))
  }

  ghost predicate SameKey(table: seq<Task>, i: nat, j: nat) {
    i < |table| && j < |table| && table[i].key == table[j].key
  }

  /** Per key, ids are dispatched in ascending order, and no unfinished task is behind a later one. */
  ghost predicate FifoMatch(table: seq<Task>, log: seq<nat>) {
    && (forall a, b :: 0 <= a < b < |log| && SameKey(table, log[a], log[b]) ==> log[a] <= log[b])
    && (forall a, i: nat :: 0 <= a < |log| && SameKey(table, log[a], i) && !Over(table[i].status) ==> log[a] <= i)
  }

  ghost predicate QInv(q: Queues) {
    && (q.up ==> QueuesMatch(q.table, q.dict))
    && RunningMatch(q.table, q.up, q.consumer)
    && NoLostWakeup(q)
    && LogMatch(q.table, q.up, q.log, q.lost)
    && FifoMatch(q.table, q.log)
  }

  // ── inserting ───────────────────────────────────────────

  lemma AppendHolds(table: seq<Task>, key: string, k: string, s: seq<nat>)
    requires Holds(table, k, s)
    ensures Holds(table + [Task(key, Pending)], k, if k == key then s + [|table|] else s)
  {
    var n, t := |table|, table + [Task(key, Pending)];
    forall i: nat ensures Waits(t, k, i) <==> Waits(table, k, i) || (i == n && k == key) {
    }
    forall i | 0 <= i < |s| ensures s[i] < n {
      assert s[i] in s;
      assert Waits(table, k, s[i]);
    }
  }

  lemma PutMatches(table: seq<Task>, d: Dict, key: string)
    requires QueuesMatch(table, d)
    ensures QueuesMatch(table + [Task(key, Pending)], Put(d, key, |table|))
  {
    var n := |table|;
    var t, e := table + [Task(key, Pending)], Put(d, key, n);
    forall k ensures Holds(t, k, QueueOf(e, k)) {
      AppendHolds(table, key, k, QueueOf(d, k));
      assert QueueOf(e, k) == if k == key then QueueOf(d, k) + [n] else QueueOf(d, k);
    }
  }

  lemma InsertKeeps(table: seq<Task>, up: bool, c: Consumer, log: seq<nat>, lost: seq<nat>, key: string)
    requires RunningMatch(table, up, c) && LogMatch(table, up, log, lost) && FifoMatch(table, log)
    ensures var t := table + [Task(key, Pending)];
            RunningMatch(t, up, c) && LogMatch(t, up, log, lost) && FifoMatch(t, log)
  {
    var n := |table|;
    var t := table + [Task(key, Pending)];
    assert n !in log && n !in lost;
    forall i | 0 <= i < |t| ensures multiset(log)[i] == multiset(lost)[i] + Counted(t[i], up) {
      if i == n {
        assert n !in multiset(log) && n !in multiset(lost);
      }
    }
    forall a, b | 0 <= a < b < |log| && SameKey(t, log[a], log[b]) ensures log[a] <= log[b] {
      assert SameKey(table, log[a], log[b]);
    }
    forall a, i: nat | 0 <= a < |log| && SameKey(t, log[a], i) && !Over(t[i].status) ensures log[a] <= i {
      if i < n {
        assert SameKey(table, log[a], i);
      }
    }
  }

  // ── taking ──────────────────────────────────────────────

  lemma PopMatches(table: seq<Task>, d: Dict, key: string)
    requires QueuesMatch(table, d) && QueueOf(d, key) != []
    ensures var tid := QueueOf(d, key)[0];
            Waits(table, key, tid) && QueuesMatch(SetStatus(table, tid, Running), Popped(d, key))
  {
    var tid := QueueOf(d, key)[0];
    var t, e := SetStatus(table, tid, Running), Popped(d, key);
    assert tid in QueueOf(d, key);
    assert Holds(table, key, QueueOf(d, key));
    forall k ensures Holds(t, k, QueueOf(e, k)) {
      assert Holds(table, k, QueueOf(d, k));
      PopHolds(table, key, QueueOf(d, key), k, QueueOf(d, k));
    }
  }

  lemma PopHolds(table: seq<Task>, key: string, s: seq<nat>, k: string, u: seq<nat>)
    requires s != [] && Holds(table, key, s) && Holds(table, k, u) && (k == key ==> u == s)
    ensures Holds(SetStatus(table, s[0], Running), k, if k == key then s[1..] else u)
  {
    var t := SetStatus(table, s[0], Running);
    assert s[0] in s;
    assert Waits(table, key, s[0]);
    forall i: nat ensures Waits(t, k, i) <==> Waits(table, k, i) && i != s[0] {
    }
    if k == key {
      forall i: nat ensures i in s <==> i == s[0] || i in s[1..] {
        assert s == [s[0]] + s[1..];
      }
      assert s[0] !in s[1..];
    }
  }

  lemma TakeKeepsLog(table: seq<Task>, log: seq<nat>, lost: seq<nat>, key: string, tid: nat)
    requires LogMatch(table, true, log, lost) && Waits(table, key, tid)
    ensures LogMatch(SetStatus(table, tid, Running), true, log + [tid], lost)
  {
    var t := SetStatus(table, tid, Running);
    forall i | 0 <= i < |t| ensures multiset(log + [tid])[i] == multiset(lost)[i] + Counted(t[i], true) {
      assert multiset(log + [tid]) == multiset(log) + multiset{tid};
    }
  }

  lemma TakeKeepsFifo(table: seq<Task>, log: seq<nat>, key: string, tid: nat)
    requires FifoMatch(table, log) && Waits(table, key, tid)
    requires forall i :: Waits(table, key, i) ==> tid <= i
    requires forall i :: 0 <= i < |table| ==> !table[i].status.Running?
    ensures FifoMatch(SetStatus(table, tid, Running), log + [tid])
  {
    var t, l := SetStatus(table, tid, Running), log + [tid];
    forall a, b | 0 <= a < b < |l| && SameKey(t, l[a], l[b]) ensures l[a] <= l[b] {
      assert SameKey(table, l[a], l[b]);
      if b < |log| {
        assert l[a] == log[a] && l[b] == log[b];
      } else {
        assert l[a] == log[a] && l[b] == tid;
      }
    }
    forall a, i: nat | 0 <= a < |l| && SameKey(t, l[a], i) && !Over(t[i].status) ensures l[a] <= i {
      assert SameKey(table, l[a], i);
      if a < |log| {
        assert l[a] == log[a];
        assert !Over(table[i].status);
      } else {
        assert Waits(table, key, i);
      }
    }
  }

  lemma TakeKeeps(q: Queues, key: string)
    requires QInv(q) && q.up && q.consumer.Looking? && QueueOf(q.dict, key) != []
    ensures QInv(Taken(q, key))
  {
    var s := QueueOf(q.dict, key);
    PopMatches(q.table, q.dict, key);
    TakeKeepsLog(q.table, q.log, q.lost, key, s[0]);
    forall i | Waits(q.table, key, i) ensures s[0] <= i {
      assert Holds(q.table, key, s);
      assert i in s;
    }
    TakeKeepsFifo(q.table, q.log, key, s[0]);
  }

  lemma LookKeeps(q: Queues)
    requires QInv(q) && q.up && q.consumer.Looking?
    ensures QInv(Looked(q))
  {
    var k := FirstBusy(q.dict, 0);
    if k.None? {
      forall key ensures QueueOf(q.dict, key) == [] {
        if key in q.dict.queues {
          assert key in q.dict.order;
        }
      }
    } else {
      var key := k.value;
      var tid := QueueOf(q.dict, key)[0];
      TakeKeeps(q, key);
    }
  }

  // ── ending, crashing, restarting ────────────────────────

  lemma EndKeeps(q: Queues, s: TaskStatus)
    requires QInv(q) && q.up && Over(s)
    ensures QInv(Ended(q, s))
  {
    if q.consumer.Holding? {
      var tid := q.consumer.tid;
      var t := SetStatus(q.table, tid, s);
      forall k, i: nat ensures Waits(t, k, i) <==> Waits(q.table, k, i) {
      }
      forall i | 0 <= i < |t| ensures Counted(t[i], true) == Counted(q.table[i], true) {
      }
      forall i: nat, j: nat ensures SameKey(t, i, j) <==> SameKey(q.table, i, j) {
      }
    }
  }

  lemma CrashKeeps(q: Queues)
    requires q.up && (QInv(q) || (RunningMatch(q.table, q.up, q.consumer)
                                  && LogMatch(q.table, q.up, q.log, q.lost) && FifoMatch(q.table, q.log)))
    ensures QInv(Crashed(q))
  {
    if q.consumer.Holding? {
      CrashKeepsLog(q.table, q.log, q.lost, q.consumer.tid);
    } else {
      assert q.lost + [] == q.lost;
    }
  }

  lemma CrashKeepsLog(table: seq<Task>, log: seq<nat>, lost: seq<nat>, tid: nat)
    requires LogMatch(table, true, log, lost) && RunningMatch(table, true, Holding(tid))
    ensures LogMatch(table, false, log, lost + [tid])
  {
    assert multiset(lost + [tid]) == multiset(lost) + multiset{tid};
    forall i | 0 <= i < |table|
      ensures multiset(log)[i] == multiset(lost + [tid])[i] + Counted(table[i], false)
    {
      assert table[i].status.Running? ==> Holding(tid) == Holding(i);
    }
  }

  lemma {:induction false} ReplayMatches(table: seq<Task>, n: nat)
    requires n <= |table|
    ensures QueuesMatch(table[..n], Replayed(table, n))
    ensures Replayed(table, n) == NO_QUEUES ==> forall i :: 0 <= i < n ==> !table[i].status.Pending?
    decreases n
  {
    if n > 0 {
      ReplayMatches(table, n - 1);
      var t, d := table[..n - 1], Replayed(table, n - 1);
      assert table[..n] == t + [table[n - 1]];
      if table[n - 1].status.Pending? {
        PutMatches(t, d, table[n - 1].key);
        assert Task(table[n - 1].key, Pending) == table[n - 1];
      } else {
        NotPendingMatches(t, d, table[n - 1]);
      }
    }
  }

  lemma NotPendingMatches(table: seq<Task>, d: Dict, last: Task)
    requires QueuesMatch(table, d) && !last.status.Pending?
    ensures QueuesMatch(table + [last], d)
  {
    forall k ensures Holds(table + [last], k, QueueOf(d, k)) {
      assert Holds(table, k, QueueOf(d, k));
      forall i: nat ensures Waits(table + [last], k, i) <==> Waits(table, k, i) {
      }
    }
  }

  lemma RestartKeeps(q: Queues)
    requires QInv(q) && !q.up
    ensures QInv(Restarted(q))
  {
    hide LogMatch, FifoMatch, QueuesMatch, Replayed, RunningMatch, Recovered;
    RecoveredLog(q.table, q.log, q.lost);
    RecoveredQueues(q.table);
    NoneRunning(Recovered(q.table));
  }

  lemma NoneRunning(table: seq<Task>)
    requires forall i :: 0 <= i < |table| ==> !table[i].status.Running?
    ensures RunningMatch(table, true, Looking)
  {
  }

  lemma RecoveredQueues(table: seq<Task>)
    ensures QueuesMatch(Recovered(table), Replayed(Recovered(table), |Recovered(table)|))
  {
    hide QueuesMatch, Replayed;
    var t := Recovered(table);
    ReplayMatches(t, |t|);
    assert t[..|t|] == t;
  }

  lemma RecoveredLog(table: seq<Task>, log: seq<nat>, lost: seq<nat>)
    requires LogMatch(table, false, log, lost) && FifoMatch(table, log)
    ensures LogMatch(Recovered(table), true, log, lost) && FifoMatch(Recovered(table), log)
  {
    var t := Recovered(table);
    forall i | 0 <= i < |t| ensures Counted(t[i], true) == Counted(table[i], false) {
    }
    forall i: nat, j: nat ensures SameKey(t, i, j) <==> SameKey(table, i, j) {
    }
  }

  lemma EnqueueKeeps(q: Queues, key: string)
    requires QInv(q) && q.up
    ensures QInv(Enqueued(q, key).(unset := q.unset + 1))
  {
    PutMatches(q.table, q.dict, key);
    InsertKeeps(q.table, q.up, q.consumer, q.log, q.lost, key);
  }

  lemma NextKeeps(q: Queues, s: Step)
    requires QInv(q)
    ensures QInv(Next(q, s))
  {
    hide QInv, Enqueued, Looked, Ended, Crashed, Restarted;
    if q.up {
      match s
      case Enqueue(oid) => EnqueueKeeps(q, KeyOf(oid));
      case Signal => SignalKeeps(q);
      case Look => if q.consumer.Looking? { LookKeeps(q); }
      case Wake => WakeKeeps(q);
      case Finish => EndKeeps(q, Finished);
      case Drop => EndKeeps(q, Dropped);
      case Crash => CrashKeeps(q);
      case CrashAfterInsert(oid) => CrashAfterInsertKeeps(q, KeyOf(oid));
      case Restart =>
    } else if s.Restart? {
      RestartKeeps(q);
    }
  }

  lemma SignalKeeps(q: Queues)
    requires QInv(q) && q.up
    ensures QInv(Next(q, Signal))
  {
    hide QueuesMatch, RunningMatch, LogMatch, FifoMatch;
  }

  lemma WakeKeeps(q: Queues)
    requires QInv(q) && q.up
    ensures QInv(Next(q, Wake))
  {
    hide QueuesMatch, LogMatch, FifoMatch;
  }

  lemma CrashAfterInsertKeeps(q: Queues, key: string)
    requires QInv(q) && q.up
    ensures QInv(Crashed(Enqueued(q, key)))
  {
    InsertKeeps(q.table, q.up, q.consumer, q.log, q.lost, key);
    CrashKeeps(Enqueued(q, key));
  }

  lemma {:induction false} RunKeeps(q: Queues, ss: seq<Step>)
    requires QInv(q)
    ensures QInv(Run(q, ss))
    decreases |ss|
  {
    if ss != [] {
      NextKeeps(q, ss[0]);
      RunKeeps(Next(q, ss[0]), ss[1..]);
    }
  }

  // ── main results ────────────────────────────────────────

  /** The ids of a key's pending rows, in id order. */
  function PendingIds(table: seq<Task>, key: string): seq<nat> {
    if table == [] then []
    else
      var n := |table| - 1;
      PendingIds(table[..n], key) + if table[n].key == key && table[n].status.Pending? then [n] else []
  }

  lemma {:induction false} PendingIdsAscend(table: seq<Task>, key: string)
    ensures Ascending(PendingIds(table, key))
    ensures forall i :: i in PendingIds(table, key) <==> Waits(table, key, i)
  {
    if table != [] {
      var n := |table| - 1;
      PendingIdsAscend(table[..n], key);
      var p := PendingIds(table[..n], key);
      forall j | 0 <= j < |p| ensures p[j] < n {
        assert p[j] in p;
        assert Waits(table[..n], key, p[j]);
      }
      forall i: nat ensures Waits(table, key, i) <==> Waits(table[..n], key, i) || (i == n && Waits(table, key, n)) {
      }
    }
  }

  lemma {:induction false} AscendingUnique(s: seq<nat>, t: seq<nat>)
    requires Ascending(s) && Ascending(t)
    requires forall i :: i in s <==> i in t
    ensures s == t
    decreases |s|
  {
    assert s != [] <==> t != [] by {
      if s != [] { assert s[0] in s; }
      if t != [] { assert t[0] in t; }
    }
    if s != [] {
      var m, n := |s| - 1, |t| - 1;
      assert s[m] in t && t[n] in s;
      assert s[m] == t[n];
      var s', t' := s[..m], t[..n];
      forall i: nat ensures i in s' <==> i in t' {
        assert i in s <==> i in s' || i == s[m];
        assert i in t <==> i in t' || i == t[n];
      }
      AscendingUnique(s', t');
      assert s == s' + [s[m]] && t == t' + [t[n]];
    }
  }

  /** While the process is up every in-memory queue is that requester's pending rows in id order,
      and at most one row is running: the one the consumer holds. */
  lemma QueueRefinement(ss: seq<Step>, key: string)
    ensures var q := Run(EMPTY, ss);
            && (q.up ==> QueueOf(q.dict, key) == PendingIds(q.table, key))
            && RunningMatch(q.table, q.up, q.consumer)
  {
    RunKeeps(EMPTY, ss);
    var q := Run(EMPTY, ss);
    if q.up {
      PendingIdsAscend(q.table, key);
      assert Holds(q.table, key, QueueOf(q.dict, key));
      AscendingUnique(QueueOf(q.dict, key), PendingIds(q.table, key));
    }
  }

  /** The ids of one requester, in the order in which they were dispatched, never go down, and
      each is dispatched exactly once more than it was cut short by a crash - or exactly as often,
      while it still waits to be dispatched again. */
  lemma CrashTolerantFifo(ss: seq<Step>)
    ensures var q := Run(EMPTY, ss);
            && (forall a, b :: 0 <= a < b < |q.log| && SameKey(q.table, q.log[a], q.log[b]) ==> q.log[a] <= q.log[b])
            && (forall i :: 0 <= i < |q.table| ==>
                  multiset(q.log)[i] == multiset(q.lost)[i] + Counted(q.table[i], q.up))
  {
    RunKeeps(EMPTY, ss);
  }

  lemma TwiceCounted(log: seq<nat>, a: nat, b: nat)
    requires a < b < |log| && log[a] == log[b]
    ensures multiset(log)[log[a]] >= 2
  {
    var u, v := log[..b], log[b..];
    assert log == u + v;
    assert u[a] == log[a] && v[0] == log[b];
    assert u[a] in multiset(u) && v[0] in multiset(v);
  }

  /** A repeat therefore has a crash behind it: without one, no id is dispatched twice. */
  lemma OnlyCrashesRepeat(ss: seq<Step>, a: nat, b: nat)
    requires a < b < |Run(EMPTY, ss).log| && Run(EMPTY, ss).log[a] == Run(EMPTY, ss).log[b]
    ensures Run(EMPTY, ss).log[a] in Run(EMPTY, ss).lost
  {
    CrashTolerantFifo(ss);
    RunKeeps(EMPTY, ss);
    var q := Run(EMPTY, ss);
    TwiceCounted(q.log, a, b);
    assert q.log[a] in multiset(q.lost);
  }

  /** Parked with the flag clear means: nothing queued, or an enqueuer about to set the flag. */
  lemma WakeupNeverLost(ss: seq<Step>)
    ensures NoLostWakeup(Run(EMPTY, ss))
  {
    RunKeeps(EMPTY, ss);
  }

  /** So a waiting task always gets the consumer going: once the sets are done, one wake-up and
      one look dispatch some task. */
  lemma PendingGetsDispatched(q: Queues, key: string, tid: nat)
    requires QInv(q) && q.up && !q.consumer.Holding? && q.unset == 0 && Waits(q.table, key, tid)
    ensures var r := Next(Next(q, Wake), Look);
            r.consumer.Holding? && r.consumer.tid < |q.table| &&
            Waits(q.table, q.table[r.consumer.tid].key, r.consumer.tid)
  {
    WaitingIsBusy(q.table, q.dict, key, tid);
    Wakes(q);
    PopMatches(q.table, q.dict, FirstBusy(q.dict, 0).value);
  }

  lemma WaitingIsBusy(table: seq<Task>, d: Dict, key: string, tid: nat)
    requires QueuesMatch(table, d) && Waits(table, key, tid)
    ensures FirstBusy(d, 0).Some? && !AllEmpty(d)
  {
    assert Holds(table, key, QueueOf(d, key));
    assert tid in QueueOf(d, key);
    assert key in d.order;
    var i :| 0 <= i < |d.order| && d.order[i] == key;
    assert QueueOf(d, d.order[i]) != [];
  }

  lemma Wakes(q: Queues)
    requires QInv(q) && q.up && !q.consumer.Holding? && q.unset == 0 && !AllEmpty(q.dict)
    ensures var x := Next(q, Wake); x == q.(consumer := Looking)
  {
  }

  /** No row disappears or changes hands, and a task that is over stays as it is. */
  lemma {:induction false} RowsEndure(q: Queues, ss: seq<Step>)
    requires QInv(q)
    ensures var r := Run(q, ss);
            && |q.table| <= |r.table|
            && (forall i :: 0 <= i < |q.table| ==> r.table[i].key == q.table[i].key)
            && (forall i :: 0 <= i < |q.table| && Over(q.table[i].status) ==> r.table[i] == q.table[i])
    decreases |ss|
  {
    if ss != [] {
      NextEndures(q, ss[0]);
      NextKeeps(q, ss[0]);
      RowsEndure(Next(q, ss[0]), ss[1..]);
    }
  }

  lemma NextEndures(q: Queues, s: Step)
    requires QInv(q)
    ensures var r := Next(q, s);
            && |q.table| <= |r.table|
            && (forall i :: 0 <= i < |q.table| ==> r.table[i].key == q.table[i].key)
            && (forall i :: 0 <= i < |q.table| && Over(q.table[i].status) ==> r.table[i] == q.table[i])
  {
    hide LogMatch, FifoMatch, NoLostWakeup, Replayed, Put;
    if s.Look? && q.up && q.consumer.Looking? && FirstBusy(q.dict, 0).Some? {
      PopMatches(q.table, q.dict, FirstBusy(q.dict, 0).value);
    }
  }

  // ── fairness ────────────────────────────────────────────

  lemma {:induction false} RunCat(q: Queues, ss: seq<Step>, ts: seq<Step>)
    ensures Run(q, ss + ts) == Run(Run(q, ss), ts)
    decreases |ss|
  {
    if ss == [] {
      assert ss + ts == ts;
    } else {
      assert (ss + ts)[0] == ss[0] && (ss + ts)[1..] == ss[1..] + ts;
      RunCat(Next(q, ss[0]), ss[1..], ts);
    }
  }

  /** A task is taken, another of the same requester arrives meanwhile, the first is finished. */
  function Round(oid: Option<string>): seq<Step> {
    [Look] + [Enqueue(oid)] + [Finish]
  }

  function Backlog(oid: Option<string>, n: nat): seq<Step> {
    if n == 0 then [] else Round(oid) + Backlog(oid, n - 1)
  }

  lemma BacklogRun(q: Queues, oid: Option<string>, n: nat)
    requires n > 0
    ensures Run(q, Backlog(oid, n)) == Run(Run(q, Round(oid)), Backlog(oid, n - 1))
  {
    RunCat(q, Round(oid), Backlog(oid, n - 1));
  }

  /** The first queue of the dict is not empty while another requester's task waits. */
  ghost predicate Ahead(q: Queues, key: string, tid: nat) {
    && QInv(q) && q.up && q.consumer.Looking?
    && q.dict.order != [] && q.dict.order[0] == key && QueueOf(q.dict, key) != []
    && tid < |q.table| && q.table[tid].key != key && q.table[tid].status.Pending?
  }

  /** One requester can starve another: while the first queue of the dict never runs dry, a task
      in another queue is not reached, however many tasks are run. */
  lemma {:induction false} BacklogStarves(q: Queues, oid: Option<string>, n: nat, tid: nat)
    requires Ahead(q, KeyOf(oid), tid)
    ensures var r := Run(q, Backlog(oid, n));
            |r.log| == |q.log| + n && tid < |r.table| && r.table[tid] == q.table[tid]
    decreases n
  {
    hide QInv, Next;
    if n > 0 {
      var c := FirstRound(q, oid, n, tid);
      BacklogStarves(c, oid, n - 1, tid);
    }
  }

  lemma FirstRound(q: Queues, oid: Option<string>, n: nat, tid: nat) returns (c: Queues)
    requires n > 0 && Ahead(q, KeyOf(oid), tid)
    ensures Run(q, Backlog(oid, n)) == Run(c, Backlog(oid, n - 1))
    ensures Ahead(c, KeyOf(oid), tid) && |c.log| == |q.log| + 1 && c.table[tid] == q.table[tid]
  {
    c := Run(q, Round(oid));
    BacklogRound(q, oid, tid);
    BacklogRun(q, oid, n);
  }

  lemma BacklogRound(q: Queues, oid: Option<string>, tid: nat)
    requires Ahead(q, KeyOf(oid), tid)
    ensures var c := Run(q, Round(oid));
            Ahead(c, KeyOf(oid), tid) && |c.log| == |q.log| + 1 && c.table[tid] == q.table[tid]
  {
    FirstServed(q, KeyOf(oid));
    var a := Next(q, Look);
    var b := Next(a, Enqueue(oid));
    NextKeeps(q, Look);
    EnqueueWhileBusy(a, oid, tid);
    FinishRound(b, tid);
    RunCat(q, [Look] + [Enqueue(oid)], [Finish]);
    RunCat(q, [Look], [Enqueue(oid)]);
    RunOne(q, Look);
    RunOne(a, Enqueue(oid));
    RunOne(b, Finish);
  }

  lemma RunOne(q: Queues, s: Step)
    ensures Run(q, [s]) == Next(q, s)
  {
    assert [s][1..] == [];
  }

  lemma FirstServed(q: Queues, key: string)
    requires QInv(q) && q.up && q.consumer.Looking?
    requires q.dict.order != [] && q.dict.order[0] == key && QueueOf(q.dict, key) != []
    ensures Next(q, Look) == Taken(q, key)
    ensures Waits(q.table, key, QueueOf(q.dict, key)[0])
  {
    assert FirstBusy(q.dict, 0) == Some(key);
    PopMatches(q.table, q.dict, key);
  }

  lemma EnqueueWhileBusy(a: Queues, oid: Option<string>, tid: nat)
    requires QInv(a) && a.up && a.consumer.Holding? && a.consumer.tid != tid && tid < |a.table|
    requires KeyOf(oid) in a.dict.queues
    ensures var b := Next(a, Enqueue(oid));
            && QInv(b) && b.up && b.consumer == a.consumer && b.log == a.log
            && b.dict.order == a.dict.order && QueueOf(b.dict, KeyOf(oid)) != []
            && tid < |b.table| && b.table[tid] == a.table[tid]
  {
    NextKeeps(a, Enqueue(oid));
  }

  lemma FinishRound(b: Queues, tid: nat)
    requires QInv(b) && b.up && b.consumer.Holding? && b.consumer.tid != tid && tid < |b.table|
    ensures var c := Next(b, Finish);
            && QInv(c) && c.up && c.consumer.Looking? && c.log == b.log && c.dict == b.dict
            && |c.table| == |b.table| && c.table[tid] == b.table[tid]
  {
    NextKeeps(b, Finish);
  }
}
