/** The task queue and the sessions together: every run of the queue hands a requester's messages over
    in deliveries of one message after the other, so that a process that dies hides no question. */
module QueueDeliveries {
  import opened Protocol
  import opened Gaps
  import opened Redriven
  import TaskQueues
  import opened TaskQueueRuns

  /** One dispatch of a task that has ended: by a crash, or because the handler returned or raised. */
  datatype Handling = Handling(tid: nat, crashed: bool)

  predicate OfKey(q: TaskQueues.Queues, tid: nat, key: string) {
    tid < |q.table| && q.table[tid].key == key
  }

  /** The dispatch of a task of this requester that the step ends, if it does. */
  function Ends(q: TaskQueues.Queues, s: TaskQueues.Step, key: string): seq<Handling> {
    if !q.up || !q.consumer.Holding? || !OfKey(q, q.consumer.tid, key) then []
    else if s.Finish? || s.Drop? then [Handling(q.consumer.tid, false)]
    else if s.Crash? || s.CrashAfterInsert? then [Handling(q.consumer.tid, true)]
    else []
  }

  /** All of them, in order. */
  function Handlings(q: TaskQueues.Queues, ss: seq<TaskQueues.Step>, key: string): seq<Handling>
    decreases |ss|
  {
    if ss == [] then [] else Ends(q, ss[0], key) + Handlings(TaskQueues.Next(q, ss[0]), ss[1..], key)
  }

  // ── they are the requester's part of the log ────────────

  function Tids(hs: seq<Handling>): (r: seq<nat>)
    ensures |r| == |hs| && forall i :: 0 <= i < |hs| ==> r[i] == hs[i].tid
  {
    seq(|hs|, i requires 0 <= i < |hs| => hs[i].tid)
  }

  /** The ids of one requester, in the order in which they were dispatched. */
  function LogOf(q: TaskQueues.Queues, log: seq<nat>, key: string): seq<nat> {
    if log == [] then []
    else LogOf(q, log[..|log| - 1], key) + if OfKey(q, log[|log| - 1], key) then [log[|log| - 1]] else []
  }

  function Held(q: TaskQueues.Queues, key: string): seq<nat> {
    if q.consumer.Holding? && OfKey(q, q.consumer.tid, key) then [q.consumer.tid] else []
  }

  lemma {:induction false} LogOfSame(q: TaskQueues.Queues, x: TaskQueues.Queues, log: seq<nat>, key: string)
    requires forall a :: 0 <= a < |log| ==> log[a] < |q.table|
    requires |q.table| <= |x.table| && forall i :: 0 <= i < |q.table| ==> x.table[i].key == q.table[i].key
    ensures LogOf(x, log, key) == LogOf(q, log, key)
    decreases |log|
  {
    if log != [] {
      LogOfSame(q, x, log[..|log| - 1], key);
    }
  }

  /** What was dispatched is what has ended and what is running. */
  lemma StepLog(q: TaskQueues.Queues, s: TaskQueues.Step, key: string, ended: seq<nat>)
    requires QInv(q) && LogOf(q, q.log, key) == ended + Held(q, key)
    ensures var x := TaskQueues.Next(q, s); LogOf(x, x.log, key) == ended + Tids(Ends(q, s, key)) + Held(x, key)
  {
    hide QueuesMatch, RunningMatch, FifoMatch, NoLostWakeup, TaskQueues.Next, LogOf, Held, Ends;
    var x := TaskQueues.Next(q, s);
    NextEndures(q, s);
    LogOfSame(q, x, q.log, key);
    if s.Look? && q.up && q.consumer.Looking? {
      LookLog(q, key);
      assert Held(q, key) == [] && Ends(q, s, key) == [] by { NoneHeld(q, s, key); }
    } else {
      OtherHeld(q, s, key);
      assert ended + (Tids(Ends(q, s, key)) + Held(x, key)) == ended + Tids(Ends(q, s, key)) + Held(x, key);
    }
  }

  lemma NoneHeld(q: TaskQueues.Queues, s: TaskQueues.Step, key: string)
    requires q.consumer.Looking?
    ensures Held(q, key) == [] && Ends(q, s, key) == []
  {
  }

  lemma OtherHeld(q: TaskQueues.Queues, s: TaskQueues.Step, key: string)
    requires QInv(q) && !(s.Look? && q.up && q.consumer.Looking?)
    ensures var x := TaskQueues.Next(q, s);
            x.log == q.log && Held(q, key) == Tids(Ends(q, s, key)) + Held(x, key)
  {
    hide QueuesMatch, LogMatch, FifoMatch, NoLostWakeup, TaskQueues.Put, TaskQueues.Replayed;
  }

  lemma LookLog(q: TaskQueues.Queues, key: string)
    requires QInv(q) && q.up && q.consumer.Looking?
    ensures var x := TaskQueues.Next(q, TaskQueues.Look);
            LogOf(x, x.log, key) == LogOf(x, q.log, key) + Held(x, key)
  {
    hide QInv;
    var x := TaskQueues.Next(q, TaskQueues.Look);
    if TaskQueues.FirstBusy(q.dict, 0).Some? {
      assert x.log == q.log + [x.consumer.tid];
      assert x.log[..|x.log| - 1] == q.log;
    }
  }

  lemma {:induction false} HandlingsAreLog(q: TaskQueues.Queues, ss: seq<TaskQueues.Step>, key: string,
                                           ended: seq<nat>)
    requires QInv(q) && LogOf(q, q.log, key) == ended + Held(q, key)
    ensures var r := TaskQueues.Run(q, ss);
            LogOf(r, r.log, key) == ended + Tids(Handlings(q, ss, key)) + Held(r, key)
    decreases |ss|
  {
    hide QInv, LogOf, Held, Ends, TaskQueues.Next;
    if ss == [] {
      assert ended + Tids([]) == ended;
    } else {
      var x, h := TaskQueues.Next(q, ss[0]), Ends(q, ss[0], key);
      NextKeeps(q, ss[0]);
      StepLog(q, ss[0], key, ended);
      HandlingsAreLog(x, ss[1..], key, ended + Tids(h));
      assert Tids(h + Handlings(x, ss[1..], key)) == Tids(h) + Tids(Handlings(x, ss[1..], key));
    }
  }

  // ── a message is handled again before the next one ──────

  predicate Follows(a: Handling, b: Handling) {
    if a.crashed then b.tid == a.tid else b.tid > a.tid
  }

  predicate Chained(hs: seq<Handling>) {
    forall i :: 0 <= i < |hs| - 1 ==> Follows(hs[i], hs[i + 1])
  }

  /** What holds while this is the last dispatch of the requester that has ended. */
  ghost predicate Since(q: TaskQueues.Queues, key: string, last: Handling) {
    && OfKey(q, last.tid, key) && last.tid in q.log
    && (last.crashed <==> !Over(q.table[last.tid].status))
    && (forall b :: b in Held(q, key) ==> Follows(last, Handling(b, false)))
  }

  lemma LookSince(q: TaskQueues.Queues, key: string, last: Handling)
    requires QInv(q) && Since(q, key, last) && q.up && q.consumer.Looking?
    ensures Since(TaskQueues.Next(q, TaskQueues.Look), key, last)
  {
    NextKeeps(q, TaskQueues.Look);
    var x := TaskQueues.Next(q, TaskQueues.Look);
    if TaskQueues.FirstBusy(q.dict, 0).Some? {
      var k := TaskQueues.FirstBusy(q.dict, 0).value;
      var tid := TaskQueues.QueueOf(q.dict, k)[0];
      PopMatches(q.table, q.dict, k);
      Taking(q, x, k, tid);
      TakenSince(q, x, key, last, k, tid);
    }
  }

  lemma TakenSince(q: TaskQueues.Queues, x: TaskQueues.Queues, key: string, last: Handling, k: string, tid: nat)
    requires Since(q, key, last) && FifoMatch(x.table, x.log)
    requires x.log == q.log + [tid] && |x.table| == |q.table| && OfKey(q, tid, k)
    requires forall i :: 0 <= i < |q.table| ==>
               x.table[i].key == q.table[i].key && (Over(x.table[i].status) <==> Over(q.table[i].status))
    requires x.consumer == TaskQueues.Holding(tid) && !Over(q.table[tid].status)
    ensures Since(x, key, last)
  {
    if k == key {
      TakenFollows(x, key, last, q.log, tid);
    }
  }

  lemma Taking(q: TaskQueues.Queues, x: TaskQueues.Queues, key: string, tid: nat)
    requires TaskQueues.QueueOf(q.dict, key) != [] && TaskQueues.QueueOf(q.dict, key)[0] == tid
    requires x == TaskQueues.Taken(q, key) && Waits(q.table, key, tid)
    ensures x.log == q.log + [tid] && |x.table| == |q.table|
    ensures forall i :: 0 <= i < |q.table| ==>
              x.table[i].key == q.table[i].key && (Over(x.table[i].status) <==> Over(q.table[i].status))
    ensures x.consumer == TaskQueues.Holding(tid) && !Over(q.table[tid].status)
  {
  }

  lemma TakenFollows(x: TaskQueues.Queues, key: string, last: Handling, log: seq<nat>, tid: nat)
    requires FifoMatch(x.table, x.log) && x.log == log + [tid] && last.tid in log
    requires OfKey(x, last.tid, key) && OfKey(x, tid, key) && !Over(x.table[tid].status)
    requires last.crashed <==> !Over(x.table[last.tid].status)
    ensures Follows(last, Handling(tid, false))
  {
    var a :| 0 <= a < |log| && log[a] == last.tid;
    assert x.log[a] == last.tid && x.log[|log|] == tid;
    assert SameKey(x.table, x.log[a], x.log[|log|]);
    if last.crashed {
      assert SameKey(x.table, x.log[|log|], last.tid);
    }
  }

  lemma StepSince(q: TaskQueues.Queues, s: TaskQueues.Step, key: string, last: Handling)
    requires QInv(q) && Since(q, key, last) && Ends(q, s, key) == []
    ensures Since(TaskQueues.Next(q, s), key, last)
  {
    if s.Look? && q.up && q.consumer.Looking? {
      LookSince(q, key, last);
    }
  }

  lemma EndedSince(q: TaskQueues.Queues, s: TaskQueues.Step, key: string)
    requires QInv(q) && Ends(q, s, key) != []
    ensures Since(TaskQueues.Next(q, s), key, Ends(q, s, key)[0])
  {
    hide QueuesMatch, FifoMatch, NoLostWakeup, LogMatch, TaskQueues.Put;
    HeldIsLogged(q);
  }

  lemma HeldIsLogged(q: TaskQueues.Queues)
    requires QInv(q) && q.consumer.Holding?
    ensures q.up && q.consumer.tid < |q.table| && q.table[q.consumer.tid].status.Running? && q.consumer.tid in q.log
  {
    hide QueuesMatch, FifoMatch, NoLostWakeup;
    assert multiset(q.log)[q.consumer.tid] >= 1;
  }

  lemma {:induction false} ChainedSince(q: TaskQueues.Queues, ss: seq<TaskQueues.Step>, key: string, last: Handling)
    requires QInv(q) && Since(q, key, last)
    ensures Chained([last] + Handlings(q, ss, key))
    decreases |ss|
  {
    hide QInv, Since, TaskQueues.Next;
    if ss != [] {
      var x, h := TaskQueues.Next(q, ss[0]), Ends(q, ss[0], key);
      NextKeeps(q, ss[0]);
      if h == [] {
        StepSince(q, ss[0], key, last);
        ChainedSince(x, ss[1..], key, last);
        assert h + Handlings(x, ss[1..], key) == Handlings(x, ss[1..], key);
      } else {
        EndedSince(q, ss[0], key);
        HeldFollows(q, ss[0], key, last);
        ChainedSince(x, ss[1..], key, h[0]);
        ChainOn(last, h[0], Handlings(x, ss[1..], key));
      }
    }
  }

  lemma HeldFollows(q: TaskQueues.Queues, s: TaskQueues.Step, key: string, last: Handling)
    requires Since(q, key, last) && Ends(q, s, key) != []
    ensures |Ends(q, s, key)| == 1 && Follows(last, Ends(q, s, key)[0])
  {
    assert q.consumer.tid in Held(q, key);
  }

  lemma ChainOn(last: Handling, h: Handling, hs: seq<Handling>)
    requires Follows(last, h) && Chained([h] + hs)
    ensures Chained([last] + ([h] + hs))
  {
    var t := [last] + ([h] + hs);
    forall i | 0 <= i < |t| - 1 ensures Follows(t[i], t[i + 1]) {
      if i > 0 {
        assert t[i] == ([h] + hs)[i - 1] && t[i + 1] == ([h] + hs)[i];
        assert Follows(([h] + hs)[i - 1], ([h] + hs)[i - 1 + 1]);
      }
    }
  }

  /** Over all runs of the queue: a message of which a crash ended the handling is the next one of its
      requester that is handled; one that was handled to the end is never handled again. */
  lemma {:induction false} AgainBeforeNext(q: TaskQueues.Queues, ss: seq<TaskQueues.Step>, key: string)
    requires QInv(q)
    ensures Chained(Handlings(q, ss, key))
    decreases |ss|
  {
    hide QInv, Since, TaskQueues.Next;
    if ss != [] {
      var x, h := TaskQueues.Next(q, ss[0]), Ends(q, ss[0], key);
      NextKeeps(q, ss[0]);
      if h == [] {
        AgainBeforeNext(x, ss[1..], key);
        assert h + Handlings(x, ss[1..], key) == Handlings(x, ss[1..], key);
      } else {
        EndedSince(q, ss[0], key);
        ChainedSince(x, ss[1..], key, h[0]);
        assert h == [h[0]];
      }
    }
  }

  // ── a session fed by the queue ──────────────────────────

  /** What the session sees of these dispatches if handlers are cut by crashes only: the same text
      again for the same task. */
  predicate Feeds(hs: seq<Handling>, es: seq<Event>) {
    && |es| == |hs|
    && (forall i :: 0 <= i < |hs| ==> (es[i].cut.Some? <==> hs[i].crashed))
    && (forall i :: 0 <= i < |hs| - 1 ==> (hs[i].tid == hs[i + 1].tid ==> Reread(es[i].reply, es[i + 1].reply)))
  }

  lemma {:induction false} FedRun(cfg: Config, s: Session, hs: seq<Handling>, es: seq<Event>)
    requires Chained(hs) && Feeds(hs, es) && !Gap(s) && (es != [] ==> Mid(cfg, s, es[0].reply))
    ensures NeverGap(cfg, s, es)
    ensures es != [] && !hs[|hs| - 1].crashed ==> Ready(cfg, Exec(cfg, s, es))
    decreases |es|
  {
    hide Step, Ready, Mid, Gap;
    if es != [] {
      var x := Step(cfg, s, es[0]);
      FedStep(cfg, s, hs, es);
      FedRest(hs, es);
      FedRun(cfg, x, hs[1..], es[1..]);
      assert |es| == 1 ==> Exec(cfg, x, es[1..]) == x;
    }
  }

  lemma FedRest(hs: seq<Handling>, es: seq<Event>)
    requires Chained(hs) && Feeds(hs, es) && es != []
    ensures Chained(hs[1..]) && Feeds(hs[1..], es[1..])
  {
    var gs, fs := hs[1..], es[1..];
    forall i | 0 <= i < |gs| - 1
      ensures Follows(gs[i], gs[i + 1]) && (gs[i].tid == gs[i + 1].tid ==> Reread(fs[i].reply, fs[i + 1].reply))
    {
      var j := i + 1;
      assert Follows(hs[j], hs[j + 1]);
      assert hs[j].tid == hs[j + 1].tid ==> Reread(es[j].reply, es[j + 1].reply);
    }
  }

  lemma FedStep(cfg: Config, s: Session, hs: seq<Handling>, es: seq<Event>)
    requires Chained(hs) && Feeds(hs, es) && es != [] && Mid(cfg, s, es[0].reply)
    ensures var x := Step(cfg, s, es[0]);
            && !Gap(x) && (|es| > 1 ==> Mid(cfg, x, es[1].reply)) && (!hs[0].crashed ==> Ready(cfg, x))
  {
    hide Step;
    if hs[0].crashed {
      CutKeepsMid(cfg, s, es[0], es[0].reply);
      if |es| > 1 {
        assert Follows(hs[0], hs[0 + 1]);
        assert Reread(es[0].reply, es[0 + 1].reply);
        CutKeepsMid(cfg, s, es[0], es[1].reply);
      }
    } else {
      WholeIsReady(cfg, s, es[0]);
    }
  }

  /** For every run of the queue and every requester: whenever the process dies, questions are never in
      line with none on screen, and once the last message is handled to its end, Q&A has a question on
      screen unless none can be pulled. */
  lemma QueueHidesNothing(cfg: Config, s: Session, ss: seq<TaskQueues.Step>, key: string, es: seq<Event>)
    requires Ready(cfg, s) && Feeds(Handlings(TaskQueues.EMPTY, ss, key), es)
    ensures var hs := Handlings(TaskQueues.EMPTY, ss, key);
            && NeverGap(cfg, s, es)
            && (es != [] && !hs[|hs| - 1].crashed ==> Ready(cfg, Exec(cfg, s, es)))
  {
    AgainBeforeNext(TaskQueues.EMPTY, ss, key);
    FedRun(cfg, s, Handlings(TaskQueues.EMPTY, ss, key), es);
  }
}
