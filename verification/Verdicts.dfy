/** Which verdicts a closing session can carry, and where FORCED_PARTIAL comes from. */
module Verdicts {
  import opened Models
  import opened Protocol
  import opened GateSafety

  /** Does this reply start the close chain, and is the close forced? */
  function StartsClose(s: Session, r: Reply): Option<bool> {
    match s.stage
    case QaActive => if r.supplement.NotMaterial? && r.intent.ForceClose? then Some(true) else None
    case QaActiveReopened => if r.supplement.NotMaterial? && r.intent.ForceClose? then Some(true) else None
    case AwaitingCloseConfirmation =>
      if r.intent.Accept? || r.intent.Done? || r.intent.PickA? then Some(false)
      else if r.intent.ForceClose? then Some(true) else None
    case Intake => if r.intent.Accept? || r.intent.Done? then Some(false) else None
    case _ => None
  }

  /** A session being delivered, or delivered, without a verdict or with FAIL. */
  predicate Unjudged(s: Session) {
    (s.stage.Closing? || s.stage.Closed?) && !Deliverable(s.verdict)
  }

  ghost predicate NoneUnjudged(t: seq<Session>) {
    forall i :: 0 <= i < |t| ==> !Unjudged(t[i])
  }

  ghost predicate SomeUnjudged(t: seq<Session>) {
    exists i :: 0 <= i < |t| && Unjudged(t[i])
  }

  lemma NoneCat(t: seq<Session>, u: seq<Session>)
    requires NoneUnjudged(t) && NoneUnjudged(u)
    ensures NoneUnjudged(t + u)
  {
  }

  lemma SomeCat(t: seq<Session>, u: seq<Session>)
    requires SomeUnjudged(u)
    ensures SomeUnjudged(t + u)
  {
    var i :| 0 <= i < |u| && Unjudged(u[i]);
    assert Unjudged((t + u)[|t| + i]);
  }

  lemma CloseUnjudged(s: Session, e: Env)
    ensures Deliverable(s.verdict) ==> NoneUnjudged(CloseT(s, e))
    ensures Deliverable(s.verdict) ==> NoneUnjudged(DeliverT(s, e))
    ensures !Deliverable(s.verdict) ==> SomeUnjudged(CloseT(s, e))
  {
    if !Deliverable(s.verdict) {
      assert Unjudged(CloseT(s, e)[0]);
    }
  }

  lemma ScanUnjudged(cfg: Config, s: Session, e: Env)
    ensures NoneUnjudged(ScanT(cfg, s, e))
  {
    if s.stage.Scanning? || s.stage.SubjectConfirmation? {
      var s0 := s.(stage := Scanning);
      var t := ScanRunT(cfg, s0, e);
      if e.scan.Scanned? {
        EmitUnjudged(End(s0, t), e);
      }
    }
  }

  lemma EmitUnjudged(s: Session, e: Env)
    requires !Unjudged(s)
    ensures NoneUnjudged(EmitT(s, e))
  {
  }

  lemma AfterGateUnjudged(cfg: Config, s: Session, forced: bool, e: Env)
    requires !Unjudged(s) && s.stage != Stage.Closed
    ensures Deliverable(s.verdict) || (!forced && s.verdict == Some(Fail)) ==>
              NoneUnjudged(AfterGateT(cfg, s, forced, e))
    ensures !(Deliverable(s.verdict) || (!forced && s.verdict == Some(Fail))) ==>
              SomeUnjudged(AfterGateT(cfg, s, forced, e))
  {
    if s.verdict != Some(Fail) || forced {
      CloseUnjudged(s, e);
    } else if OpenBlockers(s.findings) == [] {
      var a := s.(verdict := Some(ForcedPartial), stage := Closing);
      CloseUnjudged(a, e);
      NoneCat([a], CloseT(a, e));
    } else if s.failCount < cfg.maxFails {
      var t := ReopenT(s, OpenBlockers(s.findings));
      EmitUnjudged(End(s, t), e);
      NoneCat(t, EmitT(End(s, t), e));
    } else {
      var a := s.(verdict := Some(ForcedPartial));
      CloseUnjudged(a, e);
      NoneCat([a], CloseT(a, e));
    }
  }

  /** The gate fails terminally, which the dispatcher records and then ignores. */
  predicate GateFails(g: GateAnswer) { g.GateDown? || g.GateGarbled? }

  /** The close chain delivers without a proper verdict exactly when it gets to the gate, the gate
      fails terminally, and either the close is forced or no gate had failed before. */
  lemma ChainUnjudged(cfg: Config, s: Session, forced: bool, e: Env)
    requires BeforeGate(cfg, s) && s.status.Active? && PreGate(s.stage)
    ensures SomeUnjudged(ChainT(cfg, s, forced, e)) <==>
            !MergeAborts(s, e) && GateFails(e.gate) && (forced || s.failCount == 0)
  {
    var t := MergeT(s, e);
    assert NoneUnjudged(t);
    if MergeAborts(s, e) {
      NoneCat(t, []);
    } else {
      GatedUnjudged(cfg, End(s, t), forced, e);
      Prefixed(t, GatedT(cfg, End(s, t), forced, e));
    }
  }

  lemma GatedUnjudged(cfg: Config, s: Session, forced: bool, e: Env)
    requires VerdictRemembersFailures(s) && !Unjudged(s) && !s.stage.Closing? && s.stage != Stage.Closed
    ensures SomeUnjudged(GatedT(cfg, s, forced, e)) <==> GateFails(e.gate) && (forced || s.failCount == 0)
  {
    var t := GateT(s, forced, e);
    var x := End(s, t);
    assert NoneUnjudged(t);
    if GateAborts(e.gate) {
      NoneCat(t, []);
    } else {
      AfterGateUnjudged(cfg, x, forced, e);
      Prefixed(t, AfterGateT(cfg, x, forced, e));
    }
  }

  ghost predicate BadGate(s: Session, r: Reply, e: Env) {
    && GateFails(e.gate)
    && StartsClose(s, r).Some? && !MergeAborts(s, e)
    && (StartsClose(s, r).value || s.failCount == 0)
  }

  /** Exactly when can a reply put an unjudged session up for delivery. */
  lemma UnjudgedDeliveryIff(cfg: Config, s: Session, r: Reply, e: Env)
    requires GateInv(cfg, s) && s.status.Active?
    ensures BadGate(s, r, e) <==> SomeUnjudged(ReplyT(cfg, s, r, e))
  {
    if StartsClose(s, r).Some? {
      ChainReply(cfg, s, r, e);
    } else {
      OtherReplyUnjudged(cfg, s, r, e);
    }
  }

  lemma ChainReply(cfg: Config, s: Session, r: Reply, e: Env)
    requires GateInv(cfg, s) && s.status.Active? && StartsClose(s, r).Some?
    ensures BadGate(s, r, e) <==> SomeUnjudged(ReplyT(cfg, s, r, e))
  {
    var forced := StartsClose(s, r).value;
    if s.stage.QaActive? || s.stage.QaActiveReopened? {
      QaForceReply(cfg, s, r, e);
    } else if s.stage.AwaitingCloseConfirmation? && !forced {
      var a := s.(stage := Merging);
      ChainUnjudged(cfg, a, false, e);
      assert ReplyT(cfg, s, r, e) == [a] + ChainT(cfg, a, false, e);
      Prefixed([a], ChainT(cfg, a, false, e));
    } else {
      ChainUnjudged(cfg, s, forced, e);
      assert ReplyT(cfg, s, r, e) == ChainT(cfg, s, forced, e);
    }
  }

  lemma QaForceReply(cfg: Config, s: Session, r: Reply, e: Env)
    requires GateInv(cfg, s) && s.status.Active? && StartsClose(s, r) == Some(true)
    requires s.stage.QaActive? || s.stage.QaActiveReopened?
    ensures BadGate(s, r, e) <==> SomeUnjudged(QaT(cfg, s, r, e))
  {
    var a := s.(stage := QaActive);
    ChainUnjudged(cfg, a, true, e);
    assert QaT(cfg, s, r, e) == [a] + ChainT(cfg, a, true, e);
    Prefixed([a], ChainT(cfg, a, true, e));
  }

  lemma Prefixed(t: seq<Session>, u: seq<Session>)
    requires NoneUnjudged(t)
    ensures SomeUnjudged(u) <==> SomeUnjudged(t + u)
  {
    if SomeUnjudged(u) {
      SomeCat(t, u);
    } else {
      NoneCat(t, u);
    }
  }

  lemma OtherReplyUnjudged(cfg: Config, s: Session, r: Reply, e: Env)
    requires GateInv(cfg, s) && s.status.Active? && StartsClose(s, r).None?
    ensures NoneUnjudged(ReplyT(cfg, s, r, e))
  {
    match s.stage
    case AwaitingMaterialConfirm =>
    case SubjectConfirmation =>
      ScanUnjudged(cfg, s.(stage := Scanning), e);
    case QaActive => QaUnjudged(cfg, s, r, e);
    case QaActiveReopened => QaUnjudged(cfg, s, r, e);
    case AwaitingCloseConfirmation => ConfirmUnjudged(cfg, s, r.intent, e);
    case _ =>
      if BusyKey(s.stage).Some? {
        BusyUnjudged(cfg, s, e);
      }
  }

  lemma ConfirmUnjudged(cfg: Config, s: Session, i: Intent, e: Env)
    requires s.stage.AwaitingCloseConfirmation?
    requires !(i.Accept? || i.Done? || i.PickA? || i.ForceClose?)
    ensures NoneUnjudged(ConfirmT(cfg, s, i, e))
  {
    if i.More? || i.PickB? {
      var t := PulledT(cfg, s);
      EmitUnjudged(End(s, t), e);
      NoneCat(t, EmitT(End(s, t), e));
    }
  }

  lemma BusyUnjudged(cfg: Config, s: Session, e: Env)
    requires GateInv(cfg, s) && s.status.Active? && BusyKey(s.stage).Some?
    ensures NoneUnjudged(BusyT(cfg, s, e))
  {
    if s.stage.Scanning? {
      ScanUnjudged(cfg, s, e);
    } else if s.stage.Closing? {
      CloseUnjudged(s, e);
    }
  }

  lemma QaUnjudged(cfg: Config, s: Session, r: Reply, e: Env)
    requires GateInv(cfg, s) && s.status.Active? && StartsClose(s, r).None?
    requires s.stage.QaActive? || s.stage.QaActiveReopened?
    ensures NoneUnjudged(QaT(cfg, s, r, e))
  {
    var s0 := s.(stage := QaActive);
    match r.supplement
    case Unreadable =>
    case Appended =>
      var t := RescanStartT(s0);
      ScanUnjudged(cfg, t[1], e);
      NoneCat(t, ScanT(cfg, t[1], e));
      NoneCat([s0], RescanT(cfg, s0, e));
    case NotMaterial =>
      var (t, act) := QaReplyT(cfg, s0, r.intent);
      QaReplyRow(cfg, s0, r.intent);
      EmitUnjudged(End(s0, t), e);
      assert !act.GoForceClose? && NoneUnjudged(t);
      NoneCat([s0], t);
      NoneCat([s0] + t, ActT(cfg, End(s0, t), act, e));
  }

  /** In runs in which no gate fails terminally, whatever else fails or is cut short, nothing is ever
      delivered, or up for delivery, without one of the three passing verdicts. */
  lemma {:induction false} VerdictSafety(cfg: Config, s: Session, es: seq<Event>)
    requires GateInv(cfg, s) && !Unjudged(s)
    requires forall i :: 0 <= i < |es| ==> !GateFails(es[i].env.gate)
    ensures var x := Exec(cfg, s, es); x.stage.Closing? || x.stage.Closed? ==> Deliverable(x.verdict)
    decreases |es|
  {
    if es != [] {
      StepGate(cfg, s, es[0]);
      if s.status.Active? {
        UnjudgedDeliveryIff(cfg, s, es[0].reply, es[0].env);
        assert !SomeUnjudged(ReplyT(cfg, s, es[0].reply, es[0].env));
      }
      VerdictSafety(cfg, Step(cfg, s, es[0]), es[1..]);
    }
  }

  /** Why a close in this state would end FORCED_PARTIAL: it was forced, or a failed gate leaves no
      open BLOCKER to ask about, or it was the last failure allowed. If the gate fails terminally
      only an earlier failure can still stand in for its answer. */
  predicate PartialReason(cfg: Config, s: Session, forced: bool, g: GateAnswer) {
    if g.GateSays? then
      forced || (GateVerdict(false, g).Fail? && (OpenBlockers(s.findings) == [] || s.failCount + 1 >= cfg.maxFails))
    else GateFails(g) && !forced && s.failCount > 0 && OpenBlockers(s.findings) == []
  }

  /** FORCED_PARTIAL is the outcome of a close exactly when it gets through merge and gate and has
      one of these reasons. */
  lemma ForcedPartialOrigin(cfg: Config, s: Session, forced: bool, e: Env)
    requires BeforeGate(cfg, s) && s.status.Active? && PreGate(s.stage)
    ensures End(s, ChainT(cfg, s, forced, e)).verdict == Some(ForcedPartial) <==>
            !MergeAborts(s, e) && PartialReason(cfg, s, forced, e.gate)
  {
    var t := MergeT(s, e);
    var s1 := End(s, t);
    if MergeAborts(s, e) {
      assert t + [] == t;
    } else {
      EndCat(s, t, GatedT(cfg, s1, forced, e));
      assert s1.failCount == s.failCount && s1.findings == s.findings && s1.verdict == s.verdict;
      GatedVerdict(cfg, s1, forced, e);
    }
  }

  lemma GatedVerdict(cfg: Config, s: Session, forced: bool, e: Env)
    requires VerdictRemembersFailures(s) && s.failCount < Cap(cfg)
    ensures End(s, GatedT(cfg, s, forced, e)).verdict == Some(ForcedPartial) <==> PartialReason(cfg, s, forced, e.gate)
  {
    var t := GateT(s, forced, e);
    var x := End(s, t);
    hide AfterGateT, OpenBlockers;
    if GateAborts(e.gate) {
      assert t + [] == t;
    } else {
      EndCat(s, t, AfterGateT(cfg, x, forced, e));
      AfterGateVerdict(cfg, x, forced, e);
    }
  }

  /** With the gate reachable, READY and READY_WITH_OPEN_ITEMS are outcomes of an unforced close
      for which no criterion and not the intent failed, and FAIL only ever reopens Q&A. */
  lemma OtherOrigins(cfg: Config, s: Session, forced: bool, e: Env)
    requires s.status.Active? && PreGate(s.stage) && !MergeAborts(s, e) && e.gate.GateSays?
    ensures var x := End(s, ChainT(cfg, s, forced, e));
            var failing := e.gate.cswFail || e.gate.intentFail;
            && (x.verdict == Some(Ready) <==> !forced && !failing && e.gate.raw.RawReady?)
            && (x.verdict == Some(ReadyWithOpenItems) <==> !forced && !failing && e.gate.raw.RawOpenItems?)
            && (x.verdict == Some(Fail) <==>
                  !forced && (failing || e.gate.raw.RawFail?)
                  && OpenBlockers(s.findings) != [] && s.failCount + 1 < cfg.maxFails)
            && x.failCount == s.failCount + (if !forced && (failing || e.gate.raw.RawFail?) then 1 else 0)
  {
    var t1 := MergeT(s, e);
    var s1 := End(s, t1);
    var t2 := GateT(s1, forced, e);
    var s2 := End(s1, t2);
    EndCat(s, t1, GatedT(cfg, s1, forced, e));
    EndCat(s1, t2, AfterGateT(cfg, s2, forced, e));
    AfterGateVerdict(cfg, s2, forced, e);
  }

  lemma AfterGateVerdict(cfg: Config, s: Session, forced: bool, e: Env)
    ensures End(s, AfterGateT(cfg, s, forced, e)).verdict ==
            if s.verdict == Some(Fail) && !forced && (OpenBlockers(s.findings) == [] || s.failCount >= cfg.maxFails)
            then Some(ForcedPartial) else s.verdict
    ensures End(s, AfterGateT(cfg, s, forced, e)).failCount == s.failCount
  {
    if s.verdict == Some(Fail) && !forced && OpenBlockers(s.findings) != [] && s.failCount < cfg.maxFails {
      ReopenOutcome(cfg, s, e);
    }
  }

  lemma ReopenOutcome(cfg: Config, s: Session, e: Env)
    requires s.verdict == Some(Fail) && OpenBlockers(s.findings) != [] && s.failCount < cfg.maxFails
    ensures var x := End(s, AfterGateT(cfg, s, false, e));
            && x.verdict == s.verdict && x.failCount == s.failCount && x.roundNo == s.roundNo + 1
            && (x.status.Closed? ==> s.status.Closed?)
            && (x.status.Active? ==> s.status.Active? && x.stage.QaActiveReopened?)
  {
    hide Reopened;
  }

  /** The verdict and the failure count with which the chain decides; a gate that fails terminally
      leaves those of an earlier close in place. */
  function Decisive(s: Session, forced: bool, g: GateAnswer): (Option<Verdict>, nat) {
    if !g.GateSays? then (s.verdict, s.failCount)
    else (Some(GateVerdict(forced, g)), s.failCount + if GateVerdict(forced, g).Fail? then 1 else 0)
  }

  predicate Reopens(cfg: Config, s: Session, forced: bool, e: Env) {
    var (v, fails) := Decisive(s, forced, e.gate);
    && !MergeAborts(s, e) && !GateAborts(e.gate)
    && v == Some(Fail) && !forced && OpenBlockers(s.findings) != [] && fails < cfg.maxFails
  }

  /** The close gets as far as the delivery of the summary. */
  predicate Delivers(cfg: Config, s: Session, forced: bool, e: Env) {
    !MergeAborts(s, e) && !GateAborts(e.gate) && !Reopens(cfg, s, forced, e)
  }

  /** Where a close ends: where merge or gate raised, reopened, delivered, in CLOSING, or failed. A
      session whose merge or gate failed terminally is still delivered, and ends CLOSED if that works. */
  lemma ChainOutcome(cfg: Config, s: Session, forced: bool, e: Env)
    requires s.status.Active? && PreGate(s.stage)
    ensures var x := End(s, ChainT(cfg, s, forced, e));
            && x.roundNo == s.roundNo + (if Reopens(cfg, s, forced, e) then 1 else 0)
            && (x.status.Closed? <==> Delivers(cfg, s, forced, e) && e.summary.Fine? && e.delivered)
            && (x.status.Closed? ==> x.stage.Closed?)
            && (Delivers(cfg, s, forced, e) ==>
                  (x.status.Active? <==> e.merge.Fine? && e.gate.GateSays? && Undelivered(e)))
            && (x.status.Active? ==> StaysAt(cfg, s, forced, e, x))
  {
    var t := MergeT(s, e);
    var s1 := End(s, t);
    if MergeAborts(s, e) {
      assert t + [] == t;
    } else {
      EndCat(s, t, GatedT(cfg, s1, forced, e));
      GatedOutcome(cfg, s1, forced, e);
    }
  }

  /** The summary is neither delivered in full nor failed terminally. */
  predicate Undelivered(e: Env) {
    e.summary.Raises? || e.summary.Breaks? || (e.summary.Fine? && !e.delivered)
  }

  /** Where an ACTIVE session is after a close. */
  predicate StaysAt(cfg: Config, s: Session, forced: bool, e: Env, x: Session) {
    if MergeAborts(s, e) then
      x.stage == s.stage && x.calls == s.calls + (if e.merge.Breaks? && s.material then [MergeCall] else [])
    else && e.merge.Fine?
         && (if GateAborts(e.gate) then
               && x.stage.FinalGating?
               && x.calls == s.calls + [MergeCall] + (if e.gate.GateBreaks? then [GateCall] else [])
             else if Reopens(cfg, s, forced, e) then x.stage.QaActiveReopened?
             else x.stage.Closing? &&
                  x.calls == s.calls + [MergeCall] + [GateCall] + (if e.summary.Raises? then [] else [SummaryCall]))
  }

  lemma GatedOutcome(cfg: Config, s: Session, forced: bool, e: Env)
    requires s.status.Active? || s.status.Failed?
    requires s.stage.FinalGating? || !s.status.Active?
    ensures var x := End(s, GatedT(cfg, s, forced, e));
            var (v, fails) := Decisive(s, forced, e.gate);
            var re := v == Some(Fail) && !forced && OpenBlockers(s.findings) != [] && fails < cfg.maxFails;
            && (GateAborts(e.gate) ==> x == (if e.gate.GateBreaks? then Log(s, GateCall) else s))
            && (!GateAborts(e.gate) ==>
              && x.roundNo == s.roundNo + (if re then 1 else 0)
              && (x.status.Closed? <==> !re && e.summary.Fine? && e.delivered)
              && (x.status.Closed? ==> x.stage.Closed?)
              && (!re ==> (x.status.Active? <==> s.status.Active? && e.gate.GateSays? && Undelivered(e)))
              && (x.status.Active? ==> s.status.Active? && e.gate.GateSays?)
              && (re && x.status.Active? ==> x.stage.QaActiveReopened?)
              && (!re && x.status.Active? ==>
                    && x.stage.Closing?
                    && x.calls == s.calls + [GateCall] + (if e.summary.Raises? then [] else [SummaryCall])))
  {
    var t := GateT(s, forced, e);
    var y := End(s, t);
    if GateAborts(e.gate) {
      assert t + [] == t;
    } else {
      EndCat(s, t, AfterGateT(cfg, y, forced, e));
      AfterGateOutcome(cfg, y, forced, e);
    }
  }

  lemma AfterGateOutcome(cfg: Config, s: Session, forced: bool, e: Env)
    requires !s.status.Closed?
    ensures var x := End(s, AfterGateT(cfg, s, forced, e));
            var re := && s.verdict == Some(Fail) && !forced
                      && OpenBlockers(s.findings) != [] && s.failCount < cfg.maxFails;
            && x.roundNo == s.roundNo + (if re then 1 else 0)
            && (x.status.Closed? <==> !re && e.summary.Fine? && e.delivered)
            && (x.status.Closed? ==> x.stage.Closed?)
            && (x.status.Active? ==> s.status.Active?)
            && (!re ==> (x.status.Active? <==> s.status.Active? && Undelivered(e)))
            && (!re && x.status.Active? ==>
                  x.stage.Closing? && x.calls == s.calls + (if e.summary.Raises? then [] else [SummaryCall]))
            && (re && x.status.Active? ==> x.stage.QaActiveReopened?)
  {
    if s.verdict == Some(Fail) && !forced {
      if OpenBlockers(s.findings) == [] {
        CloseOutcome(s.(verdict := Some(ForcedPartial), stage := Closing), e);
      } else if s.failCount >= cfg.maxFails {
        CloseOutcome(s.(verdict := Some(ForcedPartial)), e);
      } else {
        ReopenOutcome(cfg, s, e);
      }
    } else {
      CloseOutcome(s, e);
    }
  }

  lemma CloseOutcome(s: Session, e: Env)
    requires !s.status.Closed?
    ensures var x := End(s, CloseT(s, e));
            && x.roundNo == s.roundNo
            && (x.status.Closed? <==> e.summary.Fine? && e.delivered)
            && (x.status.Closed? ==> x.stage.Closed?)
            && (x.status.Active? <==> s.status.Active? && Undelivered(e))
            && (x.status.Active? ==>
                  x.stage.Closing? && x.calls == s.calls + (if e.summary.Raises? then [] else [SummaryCall]))
  {
  }
}
