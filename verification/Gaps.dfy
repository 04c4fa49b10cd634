/** Exactly when questions are in line and none is on screen. */
module Gaps {
  import opened Models
  import opened Scan
  import opened Protocol

  predicate Gap(s: Session) { s.cursor.current.None? && s.cursor.pending != [] }

  ghost predicate NoGaps(t: seq<Session>) {
    forall i :: 0 <= i < |t| ==> !Gap(t[i])
  }

  lemma NoGapsCat(t: seq<Session>, u: seq<Session>)
    requires NoGaps(t) && NoGaps(u)
    ensures NoGaps(t + u)
  {
  }

  lemma EmitNoGaps(s: Session, e: Env)
    requires !Gap(s)
    ensures NoGaps(EmitT(s, e))
  {
  }

  lemma ChainNoGaps(cfg: Config, s: Session, forced: bool, e: Env)
    requires !Gap(s)
    ensures NoGaps(ChainT(cfg, s, forced, e))
  {
    var t := MergeT(s, e);
    if !MergeAborts(s, e) {
      GatedNoGaps(cfg, End(s, t), forced, e);
      NoGapsCat(t, GatedT(cfg, End(s, t), forced, e));
    }
  }

  lemma GatedNoGaps(cfg: Config, s: Session, forced: bool, e: Env)
    requires !Gap(s)
    ensures NoGaps(GatedT(cfg, s, forced, e))
  {
    var t := GateT(s, forced, e);
    if !GateAborts(e.gate) {
      AfterGateNoGaps(cfg, End(s, t), forced, e);
      NoGapsCat(t, AfterGateT(cfg, End(s, t), forced, e));
    }
  }

  lemma AfterGateNoGaps(cfg: Config, s: Session, forced: bool, e: Env)
    requires !Gap(s)
    ensures NoGaps(AfterGateT(cfg, s, forced, e))
  {
    if s.verdict == Some(Fail) && !forced && OpenBlockers(s.findings) != [] && s.failCount < cfg.maxFails {
      var t := ReopenT(s, OpenBlockers(s.findings));
      assert NoGaps(t);
      hide ReopenT, OpenBlockers;
      EmitNoGaps(End(s, t), e);
      NoGapsCat(t, EmitT(End(s, t), e));
    } else {
      hide ReopenT, EmitT, OpenBlockers;
    }
  }

  lemma FoundNoGaps(cfg: Config, s: Session, found: seq<Finding>)
    requires !Gap(s)
    ensures NoGaps(FoundT(cfg, s, found))
  {
    var ids := Prioritize(found);
    FirstCursorPresentsAll(ids, cfg.topN);
    var d := s.(findings := s.findings + Opened(found), cursor := FirstCursor(ids, cfg.topN), plan := ids);
    NoGapsCat(Appends(s, Opened(found)), [d, d.(stage := QaActive)]);
  }

  lemma ScanRunNoGaps(cfg: Config, s: Session, e: Env)
    requires !Gap(s)
    ensures NoGaps(ScanRunT(cfg, s, e))
    ensures !Gap(End(s, ScanRunT(cfg, s, e)))
  {
    if e.scan.Scanned? {
      var a := Log(s, PillarCall);
      var b := Log(a, ResponderCall);
      FoundNoGaps(cfg, b, e.scan.found);
      NoGapsCat([a, b], FoundT(cfg, b, e.scan.found));
    } else if e.scan.ScanStores? {
      var a := Log(s, PillarCall);
      var b := Log(a, ResponderCall);
      NoGapsCat([a, b], Appends(b, Opened(e.scan.stored)));
    }
  }

  lemma ScanNoGaps(cfg: Config, s: Session, e: Env)
    requires !Gap(s)
    ensures NoGaps(ScanT(cfg, s, e))
  {
    if s.stage.Scanning? || s.stage.SubjectConfirmation? {
      var s0 := s.(stage := Scanning);
      var t := ScanRunT(cfg, s0, e);
      ScanRunNoGaps(cfg, s0, e);
      EmitNoGaps(End(s0, t), e);
      NoGapsCat([s0], t);
      NoGapsCat([s0] + t, if e.scan.Scanned? then EmitT(End(s0, t), e) else []);
    }
  }

  lemma RescanNoGaps(cfg: Config, s: Session, e: Env)
    ensures NoGaps(RescanT(cfg, s, e))
  {
    var t := RescanStartT(s);
    ScanNoGaps(cfg, t[1], e);
    NoGapsCat(t, ScanT(cfg, t[1], e));
  }

  /** `more` with nothing on screen and something to pull. */
  predicate PullsIntoEmpty(cfg: Config, s: Session, r: Reply) {
    && (s.stage.QaActive? || s.stage.QaActiveReopened?) && r.supplement.NotMaterial? && r.intent.More?
    && s.cursor.current.None? && Take(s.cursor.deferred, cfg.topN) != []
  }

  lemma ActNoGaps(cfg: Config, s: Session, act: Action, e: Env)
    requires !Gap(s)
    ensures NoGaps(ActT(cfg, s, act, e))
  {
    if act.EmitNext? {
      EmitNoGaps(s, e);
    } else if act.GoForceClose? {
      ChainNoGaps(cfg, s, true, e);
    }
  }

  lemma AnswerNoGaps(cfg: Config, s: Session, i: Intent)
    requires !Gap(s) && (i.More? ==> s.cursor.current.Some? || Take(s.cursor.deferred, cfg.topN) == [])
    ensures NoGaps(QaReplyT(cfg, s, i).0) && !Gap(End(s, QaReplyT(cfg, s, i).0))
  {
  }

  lemma QaNoGaps(cfg: Config, s: Session, r: Reply, e: Env)
    requires !Gap(s) && (s.stage.QaActive? || s.stage.QaActiveReopened?) && !PullsIntoEmpty(cfg, s, r)
    ensures NoGaps(QaT(cfg, s, r, e))
  {
    var s0 := s.(stage := QaActive);
    if r.supplement.Appended? {
      RescanNoGaps(cfg, s0, e);
      NoGapsCat([s0], RescanT(cfg, s0, e));
    } else if r.supplement.NotMaterial? {
      var (t, act) := QaReplyT(cfg, s0, r.intent);
      AnswerNoGaps(cfg, s0, r.intent);
      ActNoGaps(cfg, End(s0, t), act, e);
      NoGapsCat([s0], t);
      NoGapsCat([s0] + t, ActT(cfg, End(s0, t), act, e));
    }
  }

  lemma ConfirmNoGaps(cfg: Config, s: Session, i: Intent, e: Env)
    requires !Gap(s)
    ensures NoGaps(ConfirmT(cfg, s, i, e))
  {
    if i.Accept? || i.Done? || i.PickA? {
      ChainNoGaps(cfg, s.(stage := Merging), false, e);
      NoGapsCat([s.(stage := Merging)], ChainT(cfg, s.(stage := Merging), false, e));
    } else if i.ForceClose? {
      ChainNoGaps(cfg, s, true, e);
    } else if i.More? || i.PickB? {
      var t := PulledT(cfg, s);
      assert NoGaps(t);
      EmitNoGaps(End(s, t), e);
      NoGapsCat(t, EmitT(End(s, t), e));
    }
  }

  lemma OtherNoGaps(cfg: Config, s: Session, r: Reply, e: Env)
    requires !Gap(s) && !s.stage.QaActive? && !s.stage.QaActiveReopened?
    ensures NoGaps(ReplyT(cfg, s, r, e))
  {
    if s.stage.AwaitingCloseConfirmation? {
      ConfirmNoGaps(cfg, s, r.intent, e);
    } else if s.stage.SubjectConfirmation? {
      ScanNoGaps(cfg, s.(stage := Scanning), e);
      NoGapsCat([s.(stage := Scanning)], ScanT(cfg, s.(stage := Scanning), e));
    } else if BusyKey(s.stage).Some? {
      BusyNoGaps(cfg, s, e);
    } else if !s.stage.AwaitingMaterialConfirm? {
      ChainNoGaps(cfg, s, false, e);
    }
  }

  lemma BusyNoGaps(cfg: Config, s: Session, e: Env)
    requires !Gap(s) && BusyKey(s.stage).Some?
    ensures NoGaps(BusyT(cfg, s, e))
  {
    if s.stage.Scanning? {
      ScanNoGaps(cfg, s, e);
    }
  }

  lemma PullTrace(cfg: Config, s: Session, r: Reply, e: Env)
    requires PullsIntoEmpty(cfg, s, r)
    ensures var a := s.(stage := QaActive);
            var b := a.(cursor := Pulled(s.cursor, cfg.topN));
            var c := b.(cursor := Advanced(b.cursor));
            QaT(cfg, s, r, e) == [a, b, c] + EmitT(c, e)
  {
  }

  /** In a session without a gap, a write leaves questions in line and none on screen exactly when
      it is the second write of a `more` that finds nothing on screen and something deferred. */
  lemma GapIff(cfg: Config, s: Session, r: Reply, e: Env, k: nat)
    requires !Gap(s) && k < |ReplyT(cfg, s, r, e)|
    ensures Gap(ReplyT(cfg, s, r, e)[k]) <==> PullsIntoEmpty(cfg, s, r) && k == 1
  {
    if PullsIntoEmpty(cfg, s, r) {
      PullTrace(cfg, s, r, e);
      var c := s.(stage := QaActive, cursor := Advanced(Pulled(s.cursor, cfg.topN)));
      EmitNoGaps(c, e);
    } else if s.stage.QaActive? || s.stage.QaActiveReopened? {
      QaNoGaps(cfg, s, r, e);
    } else {
      OtherNoGaps(cfg, s, r, e);
    }
  }

  /** So a run has no gap at its end if no message of it is cut short after two writes. */
  lemma {:induction false} NoGapWithoutThatCrash(cfg: Config, s: Session, es: seq<Event>)
    requires !Gap(s) && forall i :: 0 <= i < |es| ==> es[i].cut != Some(2)
    ensures !Gap(Exec(cfg, s, es))
    decreases |es|
  {
    if es != [] {
      StepNoGap(cfg, s, es[0]);
      NoGapWithoutThatCrash(cfg, Step(cfg, s, es[0]), es[1..]);
    }
  }

  lemma StepNoGap(cfg: Config, s: Session, e: Event)
    requires !Gap(s) && e.cut != Some(2)
    ensures !Gap(Step(cfg, s, e))
  {
    var t := StepT(cfg, s, e);
    if t != [] {
      var u := ReplyT(cfg, s, e.reply, e.env);
      var k := |t| - 1;
      assert t[k] == u[k];
      GapIff(cfg, s, e.reply, e.env, k);
      if PullsIntoEmpty(cfg, s, e.reply) {
        PullTrace(cfg, s, e.reply, e.env);
        assert |u| >= 3;
        assert k != 1;
      }
    }
  }
}
