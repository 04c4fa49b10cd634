/** Which task is dispatched next, and exactly when a waiting one is. */
module TaskQueueOrder {
  import opened Models
  import opened TaskQueues
  import opened TaskQueueRuns

  /** The consumer takes this task exactly when it heads its queue and all queues that come earlier
      in the dict are empty. */
  lemma LookIff(q: Queues, tid: nat)
    requires QInv(q) && q.up && q.consumer.Looking?
    ensures Next(q, Look).consumer == Holding(tid) <==>
            exists p :: 0 <= p < |q.dict.order| && Heads(q.dict, p, tid)
  {
    var k := FirstBusy(q.dict, 0);
    if k.Some? {
      FirstBusyAt(q.dict, 0);
      var p :| 0 <= p < |q.dict.order| && q.dict.order[p] == k.value && EmptyBefore(q.dict, p);
      if QueueOf(q.dict, k.value)[0] == tid {
        assert Heads(q.dict, p, tid);
      }
      forall i | 0 <= i < |q.dict.order| && Heads(q.dict, i, tid) ensures QueueOf(q.dict, k.value)[0] == tid {
        OneFirst(q.dict, i, p);
      }
    }
  }

  predicate EmptyBefore(d: Dict, p: nat) {
    p <= |d.order| && forall i :: 0 <= i < p ==> QueueOf(d, d.order[i]) == []
  }

  predicate Heads(d: Dict, p: nat, tid: nat) {
    && p < |d.order| && EmptyBefore(d, p)
    && QueueOf(d, d.order[p]) != [] && QueueOf(d, d.order[p])[0] == tid
  }

  lemma OneFirst(d: Dict, i: nat, p: nat)
    requires i < |d.order| && p < |d.order| && EmptyBefore(d, i) && EmptyBefore(d, p)
    requires QueueOf(d, d.order[i]) != [] && QueueOf(d, d.order[p]) != []
    ensures i == p
  {
  }

  lemma {:induction false} FirstBusyAt(d: Dict, from: nat)
    requires EmptyBefore(d, from) && FirstBusy(d, from).Some?
    ensures exists p :: from <= p < |d.order| && d.order[p] == FirstBusy(d, from).value && EmptyBefore(d, p)
    decreases |d.order| - from
  {
    if QueueOf(d, d.order[from]) == [] {
      FirstBusyAt(d, from + 1);
    }
  }

  // ── how many go first ───────────────────────────────────

  /** The ids in the first p queues. */
  function Front(d: Dict, p: nat): seq<nat>
    requires p <= |d.order|
  {
    if p == 0 then [] else Front(d, p - 1) + QueueOf(d, d.order[p - 1])
  }

  predicate WaitsAt(q: Queues, p: nat, j: nat, tid: nat) {
    && q.up && p < |q.dict.order|
    && j < |QueueOf(q.dict, q.dict.order[p])| && QueueOf(q.dict, q.dict.order[p])[j] == tid
  }

  /** The key has a queue before the p-th. */
  predicate Earlier(d: Dict, key: string, p: nat) {
    p <= |d.order| && key in d.order[..p]
  }

  /** Steps of a process that stays up, in which nobody enqueues ahead of the p-th queue. */
  predicate Quiet(d: Dict, p: nat, s: Step) {
    && !s.Crash? && !s.CrashAfterInsert? && !s.Restart?
    && (s.Enqueue? ==> !Earlier(d, KeyOf(s.oid), p))
  }

  lemma {:induction false} FrontPut(d: Dict, key: string, tid: nat, p: nat)
    requires p <= |d.order| && !Earlier(d, key, p)
    ensures p <= |Put(d, key, tid).order| && Put(d, key, tid).order[..p] == d.order[..p]
    ensures Front(Put(d, key, tid), p) == Front(d, p)
    decreases p
  {
    if p > 0 {
      assert d.order[p - 1] in d.order[..p];
      assert d.order[..p - 1] <= d.order[..p];
      FrontPut(d, key, tid, p - 1);
      assert QueueOf(Put(d, key, tid), d.order[p - 1]) == QueueOf(d, d.order[p - 1]);
    }
  }

  lemma {:induction false} FrontPopped(d: Dict, i: nat, p: nat)
    requires DistinctOrder(d) && p <= |d.order| && i < |d.order| && QueueOf(d, d.order[i]) != []
    ensures |Front(Popped(d, d.order[i]), p)| == |Front(d, p)| - if i < p then 1 else 0
    decreases p
  {
    if p > 0 {
      FrontPopped(d, i, p - 1);
    }
  }

  lemma {:induction false} EmptyFront(d: Dict, p: nat)
    requires EmptyBefore(d, p)
    ensures Front(d, p) == []
    decreases p
  {
    if p > 0 {
      EmptyFront(d, p - 1);
      assert QueueOf(d, d.order[p - 1]) == [];
    }
  }

  /** One step: the task moves up as the log grows, or it is handed to the dispatcher, when and only
      when nothing was in front of it. */
  lemma QuietStep(q: Queues, s: Step, p: nat, j: nat, tid: nat) returns (j': nat)
    requires QInv(q) && WaitsAt(q, p, j, tid) && Quiet(q.dict, p, s)
    ensures var x := Next(q, s);
            && p < |x.dict.order| && x.dict.order[..p + 1] == q.dict.order[..p + 1]
            && (if |Front(q.dict, p)| == 0 == j && s.Look? && q.consumer.Looking? then x.log == q.log + [tid]
                else WaitsAt(x, p, j', tid) &&
                     |x.log| + |Front(x.dict, p)| + j' == |q.log| + |Front(q.dict, p)| + j)
  {
    j' := j;
    if s.Look? && q.consumer.Looking? {
      j' := QuietLook(q, p, j, tid);
    } else {
      OtherStep(q, s, p, j, tid);
    }
  }

  lemma OtherStep(q: Queues, s: Step, p: nat, j: nat, tid: nat)
    requires WaitsAt(q, p, j, tid) && Quiet(q.dict, p, s) && !(s.Look? && q.consumer.Looking?)
    ensures var x := Next(q, s);
            && p < |x.dict.order| && x.dict.order[..p + 1] == q.dict.order[..p + 1]
            && WaitsAt(x, p, j, tid) && x.log == q.log && Front(x.dict, p) == Front(q.dict, p)
  {
    if s.Enqueue? {
      FrontPut(q.dict, KeyOf(s.oid), |q.table|, p);
    }
  }

  /** Taking the head of the first busy queue. */
  lemma TookFirst(d: Dict, i: nat, p: nat, j: nat) returns (j': nat)
    requires DistinctOrder(d) && i <= p < |d.order| && EmptyBefore(d, i) && QueueOf(d, d.order[i]) != []
    requires j < |QueueOf(d, d.order[p])|
    ensures var x := Popped(d, d.order[i]);
            var w := QueueOf(x, d.order[p]);
            if |Front(d, p)| == 0 == j then i == p
            else && j' < |w| && w[j'] == QueueOf(d, d.order[p])[j]
                 && |Front(x, p)| + j' + 1 == |Front(d, p)| + j
  {
    hide Front;
    FrontPopped(d, i, p);
    FrontGrows(d, i, p);
    if i == p {
      EmptyFront(d, i);
      j' := if j > 0 then j - 1 else 0;
    } else {
      j' := j;
      assert d.order[i] != d.order[p];
    }
  }

  lemma QuietLook(q: Queues, p: nat, j: nat, tid: nat) returns (j': nat)
    requires QInv(q) && WaitsAt(q, p, j, tid) && q.consumer.Looking?
    ensures var x := Next(q, Look);
            && x.dict.order == q.dict.order
            && (if |Front(q.dict, p)| == 0 == j then x.log == q.log + [tid]
                else WaitsAt(x, p, j', tid) &&
                     |x.log| + |Front(x.dict, p)| + j' == |q.log| + |Front(q.dict, p)| + j)
  {
    hide QInv, Next, FirstBusy, Front, EmptyBefore, DistinctOrder;
    var i := LookTakes(q, p);
    j' := TookFirst(q.dict, i, p, j);
  }

  lemma {:induction false} FrontGrows(d: Dict, i: nat, p: nat)
    requires i < |d.order| && p <= |d.order| && QueueOf(d, d.order[i]) != []
    ensures i < p ==> |Front(d, p)| > 0
    decreases p
  {
    if i < p - 1 {
      FrontGrows(d, i, p - 1);
    }
  }

  lemma LookTakes(q: Queues, p: nat) returns (i: nat)
    requires QInv(q) && q.up && q.consumer.Looking? && p < |q.dict.order| && QueueOf(q.dict, q.dict.order[p]) != []
    ensures i <= p && EmptyBefore(q.dict, i) && QueueOf(q.dict, q.dict.order[i]) != []
    ensures Next(q, Look) == Taken(q, q.dict.order[i]) && DistinctOrder(q.dict)
  {
    var k := FirstBusy(q.dict, 0);
    FirstBusyAt(q.dict, 0);
    i :| 0 <= i < |q.dict.order| && q.dict.order[i] == k.value && EmptyBefore(q.dict, i);
  }

  lemma {:induction false} LogGrows(q: Queues, ss: seq<Step>)
    ensures q.log <= Run(q, ss).log
    decreases |ss|
  {
    if ss != [] {
      LogGrows(Next(q, ss[0]), ss[1..]);
    }
  }

  /** While the process is up and nobody enqueues ahead of it, exactly as many tasks are dispatched
      before a waiting one as there are in the queues before its own, and before it in its own: so
      many, and then this one. */
  lemma {:induction false} ServedAfterExactly(q: Queues, ss: seq<Step>, p: nat, j: nat, tid: nat)
    requires QInv(q) && WaitsAt(q, p, j, tid)
    requires forall i :: 0 <= i < |ss| ==> Quiet(q.dict, p, ss[i])
    ensures var ahead := |Front(q.dict, p)| + j;
            var r := Run(q, ss);
            if |r.log| > |q.log| + ahead then r.log[|q.log| + ahead] == tid
            else exists j' :: WaitsAt(r, p, j', tid) && |r.log| + |Front(r.dict, p)| + j' == |q.log| + ahead
    decreases |ss|
  {
    hide QInv, Next, Front, Quiet, WaitsAt;
    if ss == [] {
      assert WaitsAt(q, p, j, tid);
    } else {
      var x := Next(q, ss[0]);
      WaitsBound(q, p, j, tid);
      var j' := QuietStep(q, ss[0], p, j, tid);
      NextKeeps(q, ss[0]);
      StaysQuiet(q, x, ss, p);
      if |Front(q.dict, p)| == 0 == j && ss[0].Look? && q.consumer.Looking? {
        LogGrows(x, ss[1..]);
        assert Run(q, ss).log[|q.log|] == x.log[|q.log|];
      } else {
        ServedAfterExactly(x, ss[1..], p, j', tid);
      }
    }
  }

  lemma WaitsBound(q: Queues, p: nat, j: nat, tid: nat)
    requires WaitsAt(q, p, j, tid)
    ensures p < |q.dict.order|
  {
  }

  lemma StaysQuiet(q: Queues, x: Queues, ss: seq<Step>, p: nat)
    requires ss != [] && p < |q.dict.order| && p < |x.dict.order| && x.dict.order[..p + 1] == q.dict.order[..p + 1]
    requires forall i :: 0 <= i < |ss| ==> Quiet(q.dict, p, ss[i])
    ensures forall i :: 0 <= i < |ss[1..]| ==> Quiet(x.dict, p, ss[1..][i])
  {
    assert x.dict.order[..p] == x.dict.order[..p + 1][..p] == q.dict.order[..p];
  }
}
