/** Exactly when a question is recorded as done, and when that happens without an answer to it. */
module Unanswered {
  import opened Models
  import opened Scan
  import opened Protocol
  import opened Wedges
  import opened Redriven

  /** An answer to the question on screen. */
  predicate Answering(s: Session, r: Reply) {
    Asks(s) && MovesOn(r) && s.cursor.current.Some?
  }

  /** The first write after which that question is done. */
  function AnswerWrite(r: Reply): nat {
    if StatusFor(r.intent).Some? then 2 else 1
  }

  /** `more` at the close prompt, with a question on screen and something to pull. */
  predicate PassesOver(cfg: Config, s: Session, r: Reply) {
    && s.stage.AwaitingCloseConfirmation? && (r.intent.More? || r.intent.PickB?)
    && s.cursor.current.Some? && Take(s.cursor.deferred, cfg.topN) != []
  }

  /** No question is done that was not. */
  ghost predicate NoneNew(s: Session, x: Session) {
    forall id :: id in x.cursor.done ==> id in s.cursor.done
  }

  ghost predicate AllNoneNew(s: Session, t: seq<Session>) {
    forall i :: 0 <= i < |t| ==> NoneNew(s, t[i])
  }

  lemma SameDone(s: Session, t: seq<Session>)
    requires forall i :: 0 <= i < |t| ==> t[i].cursor.done == s.cursor.done || t[i].cursor.done == []
    ensures AllNoneNew(s, t)
  {
  }

  // ── handlers that record nothing ────────────────────────

  lemma EmitSame(s: Session, e: Env)
    ensures forall i :: 0 <= i < |EmitT(s, e)| ==>
              EmitT(s, e)[i].cursor == s.cursor && EmitT(s, e)[i].findings == s.findings
    ensures End(s, EmitT(s, e)).findings == s.findings
  {
  }

  lemma FoundDone(cfg: Config, s: Session, found: seq<Finding>)
    ensures forall i :: 0 <= i < |FoundT(cfg, s, found)| ==>
              FoundT(cfg, s, found)[i].cursor.done == s.cursor.done || FoundT(cfg, s, found)[i].cursor.done == []
    ensures End(s, FoundT(cfg, s, found)).cursor.done == []
  {
    hide Prioritize;
  }

  lemma ScanRunDone(cfg: Config, s: Session, e: Env)
    ensures var t := ScanRunT(cfg, s, e);
            forall i :: 0 <= i < |t| ==> t[i].cursor.done == s.cursor.done || t[i].cursor.done == []
    ensures e.scan.Scanned? ==> End(s, ScanRunT(cfg, s, e)).cursor.done == []
  {
    hide FoundT;
    if e.scan.Scanned? {
      FoundDone(cfg, Log(Log(s, PillarCall), ResponderCall), e.scan.found);
    }
  }

  lemma ScanDone(cfg: Config, s: Session, e: Env)
    ensures var t := ScanT(cfg, s, e);
            forall i :: 0 <= i < |t| ==> t[i].cursor.done == s.cursor.done || t[i].cursor.done == []
  {
    var s0 := s.(stage := Scanning);
    var t := ScanRunT(cfg, s0, e);
    ScanRunDone(cfg, s0, e);
    EmitSame(End(s0, t), e);
  }

  lemma CloseSame(s: Session, e: Env)
    ensures forall i :: 0 <= i < |CloseT(s, e)| ==> CloseT(s, e)[i].cursor == s.cursor
  {
  }

  lemma AfterGateDone(cfg: Config, s: Session, forced: bool, e: Env)
    ensures forall i :: 0 <= i < |AfterGateT(cfg, s, forced, e)| ==>
              AfterGateT(cfg, s, forced, e)[i].cursor.done == s.cursor.done
  {
    var t := ReopenT(s, OpenBlockers(s.findings));
    assert forall i :: 0 <= i < |t| ==> t[i].cursor.done == s.cursor.done;
    EmitSame(End(s, t), e);
    CloseSame(s, e);
    CloseSame(s.(verdict := Some(ForcedPartial), stage := Closing), e);
    CloseSame(s.(verdict := Some(ForcedPartial)), e);
  }

  lemma GatedDone(cfg: Config, s: Session, forced: bool, e: Env)
    ensures forall i :: 0 <= i < |GatedT(cfg, s, forced, e)| ==>
              GatedT(cfg, s, forced, e)[i].cursor.done == s.cursor.done
  {
    var t := GateT(s, forced, e);
    assert forall i :: 0 <= i < |t| ==> t[i].cursor.done == s.cursor.done;
    AfterGateDone(cfg, End(s, t), forced, e);
  }

  lemma ChainDone(cfg: Config, s: Session, forced: bool, e: Env)
    ensures forall i :: 0 <= i < |ChainT(cfg, s, forced, e)| ==>
              ChainT(cfg, s, forced, e)[i].cursor.done == s.cursor.done
  {
    var t := MergeT(s, e);
    assert forall i :: 0 <= i < |t| ==> t[i].cursor.done == s.cursor.done;
    GatedDone(cfg, End(s, t), forced, e);
  }

  lemma BusyDone(cfg: Config, s: Session, e: Env)
    requires BusyKey(s.stage).Some?
    ensures AllNoneNew(s, BusyT(cfg, s, e))
  {
    if s.stage.Scanning? {
      ScanDone(cfg, s, e);
    }
  }

  // ── answers and the close prompt ────────────────────────

  /** A reply to a question, before the dispatcher acts on it. */
  lemma QaReplyDone(cfg: Config, s: Session, r: Reply, id: Id)
    requires s.stage.QaActive? && r.supplement.NotMaterial? && id !in s.cursor.done
    ensures var t := QaReplyT(cfg, s, r.intent).0;
            && (forall k :: 0 <= k < |t| ==>
                  (id in t[k].cursor.done <==>
                     s.cursor.current == Some(id) && Answering(s, r) && k + 1 >= AnswerWrite(r)))
            && (id in End(s, t).cursor.done <==> s.cursor.current == Some(id) && Answering(s, r))
  {
  }

  lemma ActDone(cfg: Config, s: Session, act: Action, e: Env)
    ensures forall i :: 0 <= i < |ActT(cfg, s, act, e)| ==>
              ActT(cfg, s, act, e)[i].cursor.done == s.cursor.done
  {
    EmitSame(s, e);
    ChainDone(cfg, s, true, e);
  }

  lemma QaDone(cfg: Config, s: Session, r: Reply, e: Env, k: nat, id: Id)
    requires Asks(s) && r.supplement.NotMaterial? && id !in s.cursor.done && k < |QaT(cfg, s, r, e)|
    ensures id in QaT(cfg, s, r, e)[k].cursor.done <==>
            s.cursor.current == Some(id) && Answering(s, r) && k >= AnswerWrite(r)
  {
    var s0 := s.(stage := QaActive);
    var (t, act) := QaReplyT(cfg, s0, r.intent);
    var u := ActT(cfg, End(s0, t), act, e);
    assert QaT(cfg, s, r, e) == [s0] + t + u;
    QaReplyDone(cfg, s0, r, id);
    ActDone(cfg, End(s0, t), act, e);
    AnswerLength(cfg, s0, r);
    StillAnswering(s, r);
    hide QaT, QaReplyT, ActT;
    hide Answering, AnswerWrite;
    if k > |t| {
      assert ([s0] + t + u)[k] == u[k - 1 - |t|];
    } else if k > 0 {
      assert ([s0] + t + u)[k] == t[k - 1];
    }
  }

  lemma StillAnswering(s: Session, r: Reply)
    requires Asks(s)
    ensures Answering(s.(stage := QaActive), r) <==> Answering(s, r)
    ensures AnswerWrite(r) >= 1
  {
  }

  lemma AnswerLength(cfg: Config, s: Session, r: Reply)
    requires s.stage.QaActive?
    ensures Answering(s, r) ==> |QaReplyT(cfg, s, r.intent).0| == AnswerWrite(r)
  {
  }

  lemma RescanDone(cfg: Config, s: Session, r: Reply, e: Env)
    requires Asks(s) && r.supplement.Appended?
    ensures AllNoneNew(s, QaT(cfg, s, r, e))
  {
    var s0 := s.(stage := QaActive);
    var t := RescanStartT(s0);
    ScanDone(cfg, t[1], e);
    assert QaT(cfg, s, r, e) == [s0] + (t + ScanT(cfg, t[1], e));
    SameDone(s, [s0] + (t + ScanT(cfg, t[1], e)));
  }

  lemma PulledDone(cfg: Config, s: Session, e: Env, k: nat, id: Id)
    requires id !in s.cursor.done && k < |PullAtCloseT(cfg, s, e)|
    ensures id in PullAtCloseT(cfg, s, e)[k].cursor.done <==> s.cursor.current == Some(id)
  {
    var t := PulledT(cfg, s);
    assert t[0].cursor == t[1].cursor == Advanced(Pulled(s.cursor, cfg.topN)) && |t| == 2;
    EmitSame(End(s, t), e);
    AdvancedDone(Pulled(s.cursor, cfg.topN));
  }

  lemma ConfirmDone(cfg: Config, s: Session, r: Reply, e: Env, k: nat, id: Id)
    requires s.stage.AwaitingCloseConfirmation? && id !in s.cursor.done && k < |ConfirmT(cfg, s, r.intent, e)|
    ensures id in ConfirmT(cfg, s, r.intent, e)[k].cursor.done <==>
            s.cursor.current == Some(id) && PassesOver(cfg, s, r)
  {
    var i := r.intent;
    if i.Accept? || i.Done? || i.PickA? {
      ChainDone(cfg, s.(stage := Merging), false, e);
    } else if i.ForceClose? {
      ChainDone(cfg, s, true, e);
    } else if i.More? || i.PickB? {
      PulledDone(cfg, s, e, k, id);
    }
  }

  lemma OtherDone(cfg: Config, s: Session, r: Reply, e: Env)
    requires !Asks(s) && !s.stage.AwaitingCloseConfirmation?
    ensures AllNoneNew(s, ReplyT(cfg, s, r, e))
  {
    hide ChainT, ScanT, BusyT;
    if s.stage.SubjectConfirmation? {
      ScanDone(cfg, s.(stage := Scanning), e);
    } else if BusyKey(s.stage).Some? {
      BusyDone(cfg, s, e);
    } else if !s.stage.AwaitingMaterialConfirm? {
      ChainDone(cfg, s, false, e);
    }
  }

  // ── main results ────────────────────────────────────────

  /** A write of a reply records a question as done exactly when that question is on screen, and the
      reply answers it, from the write of the cursor on, or is a `more` at the close prompt that
      finds something to pull. */
  lemma DoneIff(cfg: Config, s: Session, r: Reply, e: Env, k: nat, id: Id)
    requires id !in s.cursor.done && k < |ReplyT(cfg, s, r, e)|
    ensures id in ReplyT(cfg, s, r, e)[k].cursor.done <==>
            s.cursor.current == Some(id) && (PassesOver(cfg, s, r) || (Answering(s, r) && k >= AnswerWrite(r)))
  {
    if Asks(s) {
      if r.supplement.NotMaterial? {
        QaDone(cfg, s, r, e, k, id);
      } else if r.supplement.Appended? {
        RescanDone(cfg, s, r, e);
      }
    } else if s.stage.AwaitingCloseConfirmation? {
      ConfirmDone(cfg, s, r, e, k, id);
    } else {
      OtherDone(cfg, s, r, e);
    }
  }

  /** So a reply that is no answer records a question as done exactly when it is such a `more`. */
  lemma UnansweredIff(cfg: Config, s: Session, r: Reply, e: Env, id: Id)
    requires id !in s.cursor.done && !Answering(s, r)
    ensures (exists k :: 0 <= k < |ReplyT(cfg, s, r, e)| && id in ReplyT(cfg, s, r, e)[k].cursor.done) <==>
            PassesOver(cfg, s, r) && s.cursor.current == Some(id)
  {
    forall k | 0 <= k < |ReplyT(cfg, s, r, e)|
      ensures id in ReplyT(cfg, s, r, e)[k].cursor.done <==> PassesOver(cfg, s, r) && s.cursor.current == Some(id)
    {
      DoneIff(cfg, s, r, e, k, id);
    }
    if PassesOver(cfg, s, r) {
      PullsSomething(cfg, s, r, e);
      var x := ReplyT(cfg, s, r, e)[0];
      assert id in x.cursor.done <==> s.cursor.current == Some(id);
    }
  }

  lemma PullsSomething(cfg: Config, s: Session, r: Reply, e: Env)
    requires PassesOver(cfg, s, r)
    ensures |ReplyT(cfg, s, r, e)| > 0
  {
    hide EmitT;
  }

  const DONE := QUIET.(intent := Done)

  /** `done` in Q&A opens the close prompt with the question still on screen. A `more` there, neither
      of them cut, then records it as done, whatever its severity, exactly when there is something to
      pull; and no finding has changed. */
  lemma DoneThenMore(cfg: Config, s: Session, e: Env, again: Env)
    requires s.status.Active? && Asks(s) && s.cursor.current.Some? && s.cursor.current.value !in s.cursor.done
    ensures var x := Step(cfg, s, Event(DONE, e, None));
            var y := Step(cfg, x, Event(MORE, again, None));
            && x == s.(stage := AwaitingCloseConfirmation) && y.findings == s.findings
            && (s.cursor.current.value in y.cursor.done <==> Take(s.cursor.deferred, cfg.topN) != [])
  {
    var x := s.(stage := AwaitingCloseConfirmation);
    assert QaT(cfg, s, DONE, e) == [s.(stage := QaActive), x];
    assert Step(cfg, s, Event(DONE, e, None)) == x;
    MoreAtPrompt(cfg, x, again);
    MoreKeepsFindings(cfg, x, again);
    AdvancedDone(Pulled(x.cursor, cfg.topN));
  }

  lemma MoreKeepsFindings(cfg: Config, x: Session, e: Env)
    requires x.status.Active? && x.stage.AwaitingCloseConfirmation?
    ensures Step(cfg, x, Event(MORE, e, None)).findings == x.findings
  {
    var t := PulledT(cfg, x);
    assert StepT(cfg, x, Event(MORE, e, None)) == PullAtCloseT(cfg, x, e);
    assert End(x, t).findings == x.findings;
    EmitSame(End(x, t), e);
    EndCat(x, t, EmitT(End(x, t), e));
  }

  /** Some message of the run meets its session with this question on screen, and answers it or
      passes it over. */
  ghost predicate Recorded(cfg: Config, s: Session, es: seq<Event>, id: Id)
    decreases |es|
  {
    es != [] &&
    (|| (s.cursor.current == Some(id) && (PassesOver(cfg, s, es[0].reply) || Answering(s, es[0].reply)))
     || Recorded(cfg, Step(cfg, s, es[0]), es[1..], id))
  }

  lemma StepRecords(cfg: Config, s: Session, e: Event, id: Id)
    requires id !in s.cursor.done && id in Step(cfg, s, e).cursor.done
    ensures s.cursor.current == Some(id) && (PassesOver(cfg, s, e.reply) || Answering(s, e.reply))
  {
    var t := StepT(cfg, s, e);
    assert t[|t| - 1] == ReplyT(cfg, s, e.reply, e.env)[|t| - 1];
    DoneIff(cfg, s, e.reply, e.env, |t| - 1, id);
  }

  /** Over all runs, cuts included: no question is done that was not on screen when a message answered
      it or passed it over. */
  lemma {:induction false} DoneRuns(cfg: Config, s: Session, es: seq<Event>, id: Id)
    requires id !in s.cursor.done && id in Exec(cfg, s, es).cursor.done
    ensures Recorded(cfg, s, es, id)
    decreases |es|
  {
    hide Step, PassesOver, Answering;
    var x := Step(cfg, s, es[0]);
    if id in x.cursor.done {
      StepRecords(cfg, s, es[0], id);
    } else {
      DoneRuns(cfg, x, es[1..], id);
    }
  }
}
