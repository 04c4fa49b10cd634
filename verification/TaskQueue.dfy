/** review_agent/tasks/queue.py and worker.py over the tasks table: what one process does between
    two awaits is one step; a crash keeps the table and loses everything else. */
module TaskQueues {
  import opened Models

  datatype TaskStatus = Pending | Running | Finished | Dropped

  /** A row of the tasks table; its id is its position. */
  datatype Task = Task(key: string, status: TaskStatus)

  /** `oid or "_global"`. */
  function KeyOf(oid: Option<string>): string {
    if oid.Some? && oid.value != "" then oid.value else "_global"
  }

  /** The dict of queues; `order` lists its keys in insertion order. */
  datatype Dict = Dict(order: seq<string>, queues: map<string, seq<nat>>)

  const NO_QUEUES := Dict([], map[])

  /** The consumer looks for work, waits for the flag, or runs a task. */
  datatype Consumer = Looking | Parked | Holding(tid: nat)

  /** `unset` counts enqueuers between their put and their set. History: `log` lists the ids
      handed to the dispatcher, `lost` the ids that were running at a crash. */
  datatype Queues = Queues(
    table: seq<Task>, up: bool, dict: Dict, flag: bool, consumer: Consumer, unset: nat,
    log: seq<nat>, lost: seq<nat>)

  const EMPTY := Queues([], false, NO_QUEUES, false, Looking, 0, [], [])

  // ── steps ───────────────────────────────────────────────

  function QueueOf(d: Dict, key: string): seq<nat> {
    if key in d.queues then d.queues[key] else []
  }

  function Put(d: Dict, key: string, tid: nat): Dict {
    if key in d.queues then d.(queues := d.queues[key := d.queues[key] + [tid]])
    else Dict(d.order + [key], d.queues[key := [tid]])
  }

  function Popped(d: Dict, key: string): Dict
    requires QueueOf(d, key) != []
  {
    d.(queues := d.queues[key := d.queues[key][1..]])
  }

  /** The first key, in dict order, whose queue is not empty. */
  function FirstBusy(d: Dict, from: nat): (k: Option<string>)
    requires from <= |d.order|
    ensures k.Some? ==> QueueOf(d, k.value) != []
    ensures k.None? ==> forall i :: from <= i < |d.order| ==> QueueOf(d, d.order[i]) == []
    decreases |d.order| - from
  {
    if from == |d.order| then None
    else if QueueOf(d, d.order[from]) != [] then Some(d.order[from])
    else FirstBusy(d, from + 1)
  }

  function SetStatus(table: seq<Task>, tid: nat, s: TaskStatus): (r: seq<Task>)
    ensures |r| == |table|
    ensures forall i :: 0 <= i < |r| ==> r[i] == if i == tid then table[i].(status := s) else table[i]
  {
    if tid < |table| then table[tid := table[tid].(status := s)] else table
  }

  /** `get_nowait` on the queue of the key, then `mark_task_running`. */
  function Taken(q: Queues, key: string): Queues
    requires QueueOf(q.dict, key) != []
  {
    var tid := QueueOf(q.dict, key)[0];
    q.(dict := Popped(q.dict, key), table := SetStatus(q.table, tid, Running),
       consumer := Holding(tid), log := q.log + [tid])
  }

  /** One pass of `next`: take the head of the first queue that has one, or clear the flag and wait. */
  function Looked(q: Queues): Queues {
    var k := FirstBusy(q.dict, 0);
    if k.None? then q.(flag := false, consumer := Parked) else Taken(q, k.value)
  }

  /** Insert the row, then put its id. */
  function Enqueued(q: Queues, key: string): Queues {
    q.(table := q.table + [Task(key, Pending)], dict := Put(q.dict, key, |q.table|))
  }

  function Ended(q: Queues, s: TaskStatus): Queues {
    if q.consumer.Holding? then q.(table := SetStatus(q.table, q.consumer.tid, s), consumer := Looking) else q
  }

  function Crashed(q: Queues): Queues {
    q.(up := false, dict := NO_QUEUES, flag := false, consumer := Looking, unset := 0,
       lost := q.lost + if q.consumer.Holding? then [q.consumer.tid] else [])
  }

  /** `recover_running_tasks`. */
  function Recovered(table: seq<Task>): (r: seq<Task>)
    ensures |r| == |table|
    ensures forall i :: 0 <= i < |r| ==>
              r[i] == if table[i].status.Running? then table[i].(status := Pending) else table[i]
  {
    seq(|table|, i requires 0 <= i < |table| =>
      if table[i].status.Running? then table[i].(status := Pending) else table[i])
  }

  /** The queues after the pending ones of the first n rows were put, oldest first. */
  function Replayed(table: seq<Task>, n: nat): Dict
    requires n <= |table|
  {
    if n == 0 then NO_QUEUES
    else if table[n - 1].status.Pending? then Put(Replayed(table, n - 1), table[n - 1].key, n - 1)
    else Replayed(table, n - 1)
  }

  /** `replay_pending` in a fresh process. */
  function Restarted(q: Queues): Queues {
    var t := Recovered(q.table);
    var d := Replayed(t, |t|);
    q.(table := t, up := true, dict := d, flag := d != NO_QUEUES, consumer := Looking, unset := 0)
  }

  datatype Step =
    | Enqueue(oid: Option<string>)   // insert and put
    | Signal                         // the matching set
    | Look | Wake | Finish | Drop
    | Crash
    | CrashAfterInsert(insertedFor: Option<string>)
    | Restart

  /** A step that is not enabled changes nothing. */
  function Next(q: Queues, s: Step): Queues {
    match s
    case Enqueue(oid) => if q.up then Enqueued(q, KeyOf(oid)).(unset := q.unset + 1) else q
    case Signal => if q.up && q.unset > 0 then q.(flag := true, unset := q.unset - 1) else q
    case Look => if q.up && q.consumer.Looking? then Looked(q) else q
    case Wake => if q.up && q.consumer.Parked? && q.flag then q.(consumer := Looking) else q
    case Finish => if q.up then Ended(q, Finished) else q
    case Drop => if q.up then Ended(q, Dropped) else q
    case Crash => if q.up then Crashed(q) else q
    case CrashAfterInsert(oid) => if q.up then Crashed(Enqueued(q, KeyOf(oid))) else q
    case Restart => if q.up then q else Restarted(q)
  }

  function Run(q: Queues, ss: seq<Step>): Queues
    decreases |ss|
  {
    if ss == [] then q else Run(Next(q, ss[0]), ss[1..])
  }

  // ── whose queue ─────────────────────────────────────────

  /** A task of a requester carries that requester, and its id goes to the end of the requester's own
      queue and to no other; tasks without a requester share one queue. */
  lemma OwnQueue(q: Queues, oid: Option<string>)
    ensures var x := Next(q, Enqueue(oid));
            var own := if oid == None || oid == Some("") then "_global" else oid.value;
            q.up ==>
              && x.table == q.table + [Task(own, Pending)]
              && QueueOf(x.dict, own) == QueueOf(q.dict, own) + [|q.table|]
              && forall key :: key != own ==> QueueOf(x.dict, key) == QueueOf(q.dict, key)
  {
  }

  /** Two requesters never share a queue. */
  lemma QueuesApart(a: string, b: string)
    requires a != "" && b != ""
    ensures KeyOf(Some(a)) == KeyOf(Some(b)) <==> a == b
    ensures KeyOf(None) == KeyOf(Some("")) && (KeyOf(None) == KeyOf(Some(a)) <==> a == "_global")
  {
  }

  // ── what the other steps mean ───────────────────────────

  /** A consumer that finds nothing waits, and only a set that comes after its look wakes it. */
  lemma LookParks(q: Queues)
    requires q.up && q.consumer.Looking? && forall key :: QueueOf(q.dict, key) == []
    ensures var x := Next(q, Look);
            && x.consumer.Parked? && Next(x, Wake) == x && x.log == q.log && x.table == q.table
            && (q.unset > 0 ==> Next(Next(x, Signal), Wake).consumer.Looking?)
  {
  }

  /** The end of a task is recorded as what it was, and in its row alone. */
  lemma EndRecorded(q: Queues)
    requires q.up && q.consumer.Holding? && q.consumer.tid < |q.table|
    ensures var tid := q.consumer.tid;
            var done, failed := Next(q, Finish), Next(q, Drop);
            && done.table == q.table[tid := Task(q.table[tid].key, Finished)] && done.consumer.Looking?
            && failed.table == q.table[tid := Task(q.table[tid].key, Dropped)] && failed.consumer.Looking?
            && done.dict == failed.dict == q.dict
  {
  }

  /** A crash loses all that is in memory and nothing else; a restart has every task pending that was
      running, and the flag set exactly if some task is pending. */
  lemma CrashAndRestart(q: Queues)
    requires q.up
    ensures var x := Next(q, Crash);
            var y := Next(x, Restart);
            && !x.up && x.table == q.table && x.log == q.log
            && x.dict == NO_QUEUES && !x.flag && x.unset == 0 && x.consumer.Looking?
            && y.up && y.consumer.Looking? && |y.table| == |q.table|
            && (forall i :: 0 <= i < |q.table| ==>
                  && y.table[i].key == q.table[i].key
                  && (y.table[i].status.Pending? <==> q.table[i].status.Pending? || q.table[i].status.Running?)
                  && (!y.table[i].status.Pending? ==> y.table[i] == q.table[i]))
            && (y.flag <==> exists i :: 0 <= i < |q.table| && y.table[i].status.Pending?)
  {
    ReplayedSome(Recovered(q.table), |q.table|);
  }

  lemma {:induction false} ReplayedSome(table: seq<Task>, n: nat)
    requires n <= |table|
    ensures Replayed(table, n) != NO_QUEUES <==> exists i :: 0 <= i < n && table[i].status.Pending?
  {
    if n > 0 {
      ReplayedSome(table, n - 1);
      var d := Replayed(table, n - 1);
      var key := table[n - 1].key;
      assert key in Put(d, key, n - 1).queues;
    }
  }

  // ── the imperative queue ────────────────────────────────

  /** `TaskQueue` with the tasks table it writes through. */
  class TaskQueue {
    var table: seq<Task>
    var order: seq<string>
    var queues: map<string, seq<nat>>
    var flag: bool

    constructor (table: seq<Task>)
      ensures this.table == table && TheDict() == NO_QUEUES && !flag
    {
      this.table, order, queues, flag := table, [], map[], false;
    }

    function TheDict(): Dict
      reads this
    {
      Dict(order, queues)
    }

    method InsertTask(key: string) returns (tid: nat)
      modifies this`table
      ensures tid == |old(table)| && table == old(table) + [Task(key, Pending)]
    {
      tid := |table|;
      table := table + [Task(key, Pending)];
    }

    method MarkTask(tid: nat, s: TaskStatus)
      modifies this`table
      ensures table == SetStatus(old(table), tid, s)
    {
      if tid < |table| {
        table := table[tid := table[tid].(status := s)];
      }
    }

    /** `self._q(oid).put(tid)`; the dict creates a missing queue. */
    method PutId(key: string, tid: nat)
      modifies this`order, this`queues
      ensures TheDict() == Put(old(TheDict()), key, tid)
    {
      if key in queues {
        queues := queues[key := queues[key] + [tid]];
      } else {
        order := order + [key];
        queues := queues[key := [tid]];
      }
    }

    method Enqueue(oid: Option<string>) returns (tid: nat)
      modifies this
      ensures tid == |old(table)| && flag
      ensures table == old(table) + [Task(if oid == None || oid == Some("") then "_global" else oid.value, Pending)]
      ensures TheDict() == Put(old(TheDict()), KeyOf(oid), tid)
    {
      tid := InsertTask(KeyOf(oid));
      PutId(KeyOf(oid), tid);
      flag := true;
    }

    /** Flip running rows to pending, then put every pending row. */
    method ReplayPending() returns (replayed: nat)
      requires TheDict() == NO_QUEUES && !flag
      modifies this
      ensures table == Recovered(old(table))
      ensures TheDict() == Replayed(table, |table|)
      ensures flag == (TheDict() != NO_QUEUES)
    {
      var i := 0;
      while i < |table|
        invariant 0 <= i <= |table| == |old(table)|
        invariant forall k :: 0 <= k < i ==> table[k] == Recovered(old(table))[k]
        invariant forall k :: i <= k < |table| ==> table[k] == old(table)[k]
        invariant TheDict() == NO_QUEUES && !flag
      {
        if table[i].status.Running? {
          MarkTask(i, Pending);
        }
        i := i + 1;
      }
      assert table == Recovered(old(table));
      replayed := 0;
      var j := 0;
      while j < |table|
        invariant 0 <= j <= |table| && table == Recovered(old(table)) && !flag
        invariant TheDict() == Replayed(table, j)
        invariant replayed > 0 <==> TheDict() != NO_QUEUES
      {
        if table[j].status.Pending? {
          PutId(table[j].key, j);
          replayed := replayed + 1;
        }
        j := j + 1;
      }
      if replayed > 0 {
        flag := true;
      }
    }

    /** One pass of the loop in `next`, up to its return or its wait. */
    method TryNext() returns (tid: Option<nat>)
      modifies this
      ensures var k := FirstBusy(old(TheDict()), 0);
              if k.None? then tid.None? && table == old(table) && TheDict() == old(TheDict()) && !flag
              else && tid == Some(QueueOf(old(TheDict()), k.value)[0])
                   && TheDict() == Popped(old(TheDict()), k.value)
                   && table == SetStatus(old(table), tid.value, Running)
                   && flag == old(flag)
    {
      var i := 0;
      while i < |order|
        invariant 0 <= i <= |order|
        invariant FirstBusy(TheDict(), 0) == FirstBusy(TheDict(), i)
        invariant table == old(table) && TheDict() == old(TheDict()) && flag == old(flag)
      {
        var key := order[i];
        if key in queues && queues[key] != [] {
          var head := queues[key][0];
          queues := queues[key := queues[key][1..]];
          MarkTask(head, Running);
          return Some(head);
        }
        i := i + 1;
      }
      flag := false;
      return None;
    }

    method MarkDone(tid: nat)
      modifies this`table
      ensures table == SetStatus(old(table), tid, Finished)
    {
      MarkTask(tid, Finished);
    }

    /** `mark_failed`, as the worker calls it: always terminal. */
    method MarkFailed(tid: nat)
      modifies this`table
      ensures table == SetStatus(old(table), tid, Dropped)
    {
      MarkTask(tid, Dropped);
    }
  }
}
