/** What answers do to the findings: the record of a finding is never lost or altered, except
    that an answer to the finding on screen sets its status. Over all runs, cuts included. */
module Answers {
  import opened Models
  import opened Scan
  import opened Protocol

  /** Every write keeps these findings and at most appends open ones. */
  ghost predicate Grown(fs: seq<Finding>, gs: seq<Finding>) {
    fs <= gs && forall i :: |fs| <= i < |gs| ==> gs[i].status.Open?
  }

  ghost predicate AllGrown(fs: seq<Finding>, t: seq<Session>) {
    forall i :: 0 <= i < |t| ==> Grown(fs, t[i].findings)
  }

  lemma GrownCat(fs: seq<Finding>, t: seq<Session>, u: seq<Session>)
    requires AllGrown(fs, t) && AllGrown(fs, u)
    ensures AllGrown(fs, t + u)
  {
  }

  lemma ChainGrows(cfg: Config, s: Session, forced: bool, e: Env)
    ensures AllGrown(s.findings, ChainT(cfg, s, forced, e))
  {
    var t := MergeT(s, e);
    if !MergeAborts(s, e) {
      GatedGrows(cfg, End(s, t), forced, e);
      GrownCat(s.findings, t, GatedT(cfg, End(s, t), forced, e));
    }
  }

  lemma GatedGrows(cfg: Config, s: Session, forced: bool, e: Env)
    ensures AllGrown(s.findings, GatedT(cfg, s, forced, e))
  {
    var t := GateT(s, forced, e);
    if !GateAborts(e.gate) {
      AfterGateGrows(cfg, End(s, t), forced, e);
      GrownCat(s.findings, t, AfterGateT(cfg, End(s, t), forced, e));
    }
  }

  lemma AfterGateGrows(cfg: Config, s: Session, forced: bool, e: Env)
    ensures AllGrown(s.findings, AfterGateT(cfg, s, forced, e))
  {
    if s.verdict == Some(Fail) && !forced && OpenBlockers(s.findings) != [] && s.failCount < cfg.maxFails {
      var t := ReopenT(s, OpenBlockers(s.findings));
      GrownCat(s.findings, t, EmitT(End(s, t), e));
    }
  }

  lemma FoundGrows(cfg: Config, s: Session, found: seq<Finding>)
    ensures AllGrown(s.findings, FoundT(cfg, s, found))
  {
    var t := Appends(s, Opened(found));
    assert AllGrown(s.findings, t);
    var ids := Prioritize(found);
    var d := s.(findings := s.findings + Opened(found), cursor := FirstCursor(ids, cfg.topN), plan := ids);
    GrownCat(s.findings, t, [d, d.(stage := QaActive)]);
  }

  lemma ScanRunGrows(cfg: Config, s: Session, e: Env)
    ensures AllGrown(s.findings, ScanRunT(cfg, s, e))
  {
    if e.scan.Scanned? {
      var a := Log(s, PillarCall);
      var b := Log(a, ResponderCall);
      FoundGrows(cfg, b, e.scan.found);
      GrownCat(s.findings, [a, b], FoundT(cfg, b, e.scan.found));
    } else if e.scan.ScanStores? {
      var a := Log(s, PillarCall);
      var b := Log(a, ResponderCall);
      GrownCat(s.findings, [a, b], Appends(b, Opened(e.scan.stored)));
    }
  }

  lemma ScanGrows(cfg: Config, s: Session, e: Env)
    ensures AllGrown(s.findings, ScanT(cfg, s, e))
  {
    if s.stage.Scanning? || s.stage.SubjectConfirmation? {
      var s0 := s.(stage := Scanning);
      var t := ScanRunT(cfg, s0, e);
      ScanRunGrows(cfg, s0, e);
      GrownCat(s.findings, [s0], t);
      var u := if e.scan.Scanned? then EmitT(End(s0, t), e) else [];
      assert AllGrown(s.findings, u);
      GrownCat(s.findings, [s0] + t, u);
    }
  }

  // ── one reply ───────────────────────────────────────────

  /** The status an answer gives: only three of the answers give one. */
  ghost predicate Decides(i: Intent, st: FindingStatus) {
    || (i.Accept? && st.Accepted?)
    || (i.Reject? && st.Rejected?)
    || (i.Modify? && st.Modified?)
  }

  /** The reply is an answer to a question on screen, and not a supplement. */
  predicate AnswersQuestion(s: Session, r: Reply) {
    (s.stage.QaActive? || s.stage.QaActiveReopened?) && r.supplement.NotMaterial? && s.cursor.current.Some?
  }

  /** What a reply may turn a stored finding into. */
  ghost predicate MayBecome(s: Session, r: Reply, f: Finding, g: Finding) {
    g == f || (AnswersQuestion(s, r) && f.id == s.cursor.current.value && Decides(r.intent, g.status)
               && g == f.(status := g.status))
  }

  ghost predicate Recorded(s: Session, r: Reply, gs: seq<Finding>) {
    && |s.findings| <= |gs|
    && (forall i :: 0 <= i < |s.findings| ==> MayBecome(s, r, s.findings[i], gs[i]))
    && (forall i :: |s.findings| <= i < |gs| ==> gs[i].status.Open?)
  }

  /** The findings once an answer is written. */
  function Decided(s: Session, i: Intent): seq<Finding> {
    if s.cursor.current.Some? && StatusFor(i).Some?
    then Restatus(s.findings, s.cursor.current.value, StatusFor(i).value) else s.findings
  }

  /** The findings once the first writes of a reply are done. */
  function Told(s: Session, r: Reply): seq<Finding> {
    if AnswersQuestion(s, r) then Decided(s, r.intent) else s.findings
  }

  lemma RescanGrows(cfg: Config, s: Session, e: Env)
    ensures AllGrown(s.findings, RescanT(cfg, s, e))
  {
    var t := RescanStartT(s);
    ScanGrows(cfg, t[1], e);
    GrownCat(s.findings, t, ScanT(cfg, t[1], e));
  }

  lemma QaReplyTells(cfg: Config, s: Session, i: Intent)
    ensures var t := QaReplyT(cfg, s, i).0; AllGrown(Decided(s, i), t) && End(s, t).findings == Decided(s, i)
  {
    hide Advanced, Pulled, Take;
  }

  lemma ActGrows(cfg: Config, s: Session, act: Action, e: Env)
    ensures AllGrown(s.findings, ActT(cfg, s, act, e))
  {
    if act.GoForceClose? {
      ChainGrows(cfg, s, true, e);
    }
  }

  lemma OtherGrows(cfg: Config, s: Session, r: Reply, e: Env)
    requires !s.stage.QaActive? && !s.stage.QaActiveReopened?
    ensures AllGrown(s.findings, ReplyT(cfg, s, r, e))
  {
    if s.stage.AwaitingCloseConfirmation? {
      ConfirmGrows(cfg, s, r.intent, e);
    } else if s.stage.SubjectConfirmation? {
      SubjectGrows(cfg, s, r, e);
    } else if BusyKey(s.stage).Some? {
      BusyGrows(cfg, s, e);
    } else if !s.stage.AwaitingMaterialConfirm? {
      ChainGrows(cfg, s, false, e);
    }
  }

  lemma SubjectGrows(cfg: Config, s: Session, r: Reply, e: Env)
    ensures AllGrown(s.findings, SubjectT(cfg, s, r, e))
  {
    var s0 := s.(stage := Scanning);
    ScanGrows(cfg, s0, e);
    GrownCat(s.findings, [s0], ScanT(cfg, s0, e));
  }

  lemma BusyGrows(cfg: Config, s: Session, e: Env)
    requires BusyKey(s.stage).Some?
    ensures AllGrown(s.findings, BusyT(cfg, s, e))
  {
    if s.stage.Scanning? {
      ScanGrows(cfg, s, e);
    }
  }

  lemma ConfirmGrows(cfg: Config, s: Session, i: Intent, e: Env)
    ensures AllGrown(s.findings, ConfirmT(cfg, s, i, e))
  {
    if i.Accept? || i.Done? || i.PickA? {
      ChainGrows(cfg, s.(stage := Merging), false, e);
    } else if i.ForceClose? {
      ChainGrows(cfg, s, true, e);
    } else if i.More? || i.PickB? {
      GrownCat(s.findings, PulledT(cfg, s), EmitT(End(s, PulledT(cfg, s)), e));
    }
  }

  ghost predicate AllRecorded(s: Session, r: Reply, t: seq<Session>) {
    forall i :: 0 <= i < |t| ==> Recorded(s, r, t[i].findings)
  }

  lemma RecordedCat(s: Session, r: Reply, t: seq<Session>, u: seq<Session>)
    requires AllRecorded(s, r, t) && AllRecorded(s, r, u)
    ensures AllRecorded(s, r, t + u)
  {
  }

  lemma GrownRecorded(s: Session, r: Reply, fs: seq<Finding>, t: seq<Session>)
    requires AllGrown(fs, t) && (fs == s.findings || fs == Told(s, r))
    ensures AllRecorded(s, r, t)
  {
    forall k | 0 <= k < |t| ensures Recorded(s, r, t[k].findings) {
      ToldRecorded(s, r, fs, t[k].findings);
    }
  }

  lemma ToldRecorded(s: Session, r: Reply, fs: seq<Finding>, gs: seq<Finding>)
    requires Grown(fs, gs) && (fs == s.findings || fs == Told(s, r))
    ensures Recorded(s, r, gs)
  {
    forall i | 0 <= i < |s.findings| ensures MayBecome(s, r, s.findings[i], gs[i]) {
      assert gs[i] == fs[i];
    }
  }

  lemma QaRecorded(cfg: Config, s: Session, r: Reply, e: Env)
    requires s.stage.QaActive? || s.stage.QaActiveReopened?
    ensures AllRecorded(s, r, QaT(cfg, s, r, e))
  {
    var s0 := s.(stage := QaActive);
    assert AllGrown(s.findings, [s0]);
    GrownRecorded(s, r, s.findings, [s0]);
    if r.supplement.Appended? {
      RescanGrows(cfg, s0, e);
      GrownRecorded(s, r, s.findings, RescanT(cfg, s0, e));
      RecordedCat(s, r, [s0], RescanT(cfg, s0, e));
    } else if r.supplement.NotMaterial? {
      var (t, act) := QaReplyT(cfg, s0, r.intent);
      assert Told(s, r) == Decided(s0, r.intent);
      QaReplyTells(cfg, s0, r.intent);
      ActGrows(cfg, End(s0, t), act, e);
      GrownRecorded(s, r, Told(s, r), t);
      GrownRecorded(s, r, Told(s, r), ActT(cfg, End(s0, t), act, e));
      RecordedCat(s, r, [s0], t);
      RecordedCat(s, r, [s0] + t, ActT(cfg, End(s0, t), act, e));
    }
  }

  /** Whatever a reply makes the program write, every write keeps all findings as they are, except
      that it may set the finding on screen to the status answered; new ones are open. */
  lemma RepliesOnlyAnswer(cfg: Config, s: Session, r: Reply, e: Env, k: nat)
    requires k < |ReplyT(cfg, s, r, e)|
    ensures Recorded(s, r, ReplyT(cfg, s, r, e)[k].findings)
  {
    if s.stage.QaActive? || s.stage.QaActiveReopened? {
      QaRecorded(cfg, s, r, e);
    } else {
      OtherGrows(cfg, s, r, e);
      GrownRecorded(s, r, s.findings, ReplyT(cfg, s, r, e));
    }
  }

  /** A decision that is handled to the end is stored with every finding of that id, and with no
      other; any other reply to the question leaves all findings as they are. */
  lemma AnswerStored(cfg: Config, s: Session, r: Reply, e: Env)
    requires s.status.Active? && AnswersQuestion(s, r)
    ensures var x := Step(cfg, s, Event(r, e, None));
            && |x.findings| == |s.findings|
            && (forall i :: 0 <= i < |s.findings| ==>
                  var f := s.findings[i];
                  if (r.intent.Accept? || r.intent.Reject? || r.intent.Modify?) && f.id == s.cursor.current.value
                  then x.findings[i] == f.(status := x.findings[i].status) && Decides(r.intent, x.findings[i].status)
                  else x.findings[i] == f)
  {
    var s0 := s.(stage := QaActive);
    var (t, act) := QaReplyT(cfg, s0, r.intent);
    var u := ActT(cfg, End(s0, t), act, e);
    QaReplyTells(cfg, s0, r.intent);
    ActKeeps(cfg, End(s0, t), act, e);
    assert QaT(cfg, s, r, e) == [s0] + t + u;
    EndCat(s, [s0], t);
    EndCat(s, [s0] + t, u);
  }

  lemma ActKeeps(cfg: Config, s: Session, act: Action, e: Env)
    ensures End(s, ActT(cfg, s, act, e)).findings == s.findings
  {
    if act.GoForceClose? {
      ChainKeeps(cfg, s, true, e);
    }
  }

  lemma ChainKeeps(cfg: Config, s: Session, forced: bool, e: Env)
    ensures End(s, ChainT(cfg, s, forced, e)).findings == s.findings
  {
    var t := MergeT(s, e);
    if MergeAborts(s, e) {
      assert t + [] == t;
    } else {
      GatedKeeps(cfg, End(s, t), forced, e);
      EndCat(s, t, GatedT(cfg, End(s, t), forced, e));
    }
  }

  lemma GatedKeeps(cfg: Config, s: Session, forced: bool, e: Env)
    ensures End(s, GatedT(cfg, s, forced, e)).findings == s.findings
  {
    var t := GateT(s, forced, e);
    if GateAborts(e.gate) {
      assert t + [] == t;
    } else {
      AfterGateKeeps(cfg, End(s, t), forced, e);
      EndCat(s, t, AfterGateT(cfg, End(s, t), forced, e));
    }
  }

  lemma AfterGateKeeps(cfg: Config, s: Session, forced: bool, e: Env)
    ensures End(s, AfterGateT(cfg, s, forced, e)).findings == s.findings
  {
    if s.verdict == Some(Fail) && !forced {
      if OpenBlockers(s.findings) == [] {
        CloseKeeps(s.(verdict := Some(ForcedPartial), stage := Closing), e);
      } else if s.failCount < cfg.maxFails {
        var t := ReopenT(s, OpenBlockers(s.findings));
        EndCat(s, t, EmitT(End(s, t), e));
      } else {
        CloseKeeps(s.(verdict := Some(ForcedPartial)), e);
      }
    } else {
      CloseKeeps(s, e);
    }
  }

  lemma CloseKeeps(s: Session, e: Env)
    ensures CloseT(s, e) != [] && End(s, CloseT(s, e)).findings == s.findings
  {
  }

  // ── runs ────────────────────────────────────────────────

  /** The same finding; its status may differ, but is not open if it was decided before. */
  ghost predicate SameFinding(f: Finding, g: Finding) {
    g == f.(status := g.status) && (g.status.Open? ==> f.status.Open?)
  }

  ghost predicate Endured(fs: seq<Finding>, gs: seq<Finding>) {
    |fs| <= |gs| && forall i :: 0 <= i < |fs| ==> SameFinding(fs[i], gs[i])
  }

  lemma RecordedEndures(s: Session, r: Reply, gs: seq<Finding>)
    requires Recorded(s, r, gs)
    ensures Endured(s.findings, gs)
  {
    forall i | 0 <= i < |s.findings| ensures SameFinding(s.findings[i], gs[i]) {
      assert MayBecome(s, r, s.findings[i], gs[i]);
    }
  }

  lemma StepEndures(cfg: Config, s: Session, e: Event)
    ensures Endured(s.findings, Step(cfg, s, e).findings)
  {
    var t := StepT(cfg, s, e);
    if t != [] {
      var k := |t| - 1;
      assert t[k] == ReplyT(cfg, s, e.reply, e.env)[k];
      RepliesOnlyAnswer(cfg, s, e.reply, e.env, k);
      RecordedEndures(s, e.reply, t[k].findings);
    }
  }

  /** Over any run findings are only appended: each keeps its place, id, pillar, severity and
      priority, and one that was ever decided is never open again. */
  lemma {:induction false} FindingsEndure(cfg: Config, s: Session, es: seq<Event>)
    ensures Endured(s.findings, Exec(cfg, s, es).findings)
    decreases |es|
  {
    if es != [] {
      StepEndures(cfg, s, es[0]);
      FindingsEndure(cfg, Step(cfg, s, es[0]), es[1..]);
    }
  }
}
