/** Safety of the gate, of the verdict and of the summary over all runs, cuts included. */
module GateSafety {
  import opened Models
  import opened Protocol

  /** Stages an ACTIVE session passes through before its final gate is decided. */
  predicate PreGate(st: Stage) {
    !(st.FinalGating? || st.Closing? || st.Closed? || st.IngestFailed? || st.Cancelled?)
  }

  predicate Deliverable(v: Option<Verdict>) {
    v.Some? && !v.value.Fail?
  }

  /** Between gates the verdict only remembers whether some gate failed. */
  predicate VerdictRemembersFailures(s: Session) {
    s.verdict == if s.failCount > 0 then Some(Fail) else None
  }

  ghost predicate GateInv(cfg: Config, s: Session) {
    && s.failCount <= Cap(cfg)
    && (s.failCount > 0 ==> GateCall in s.calls)
    && (s.stage.Closed? <==> s.status.Closed?)
    && multiset(s.calls)[SummaryCall] <= 1
    && (s.status.Active? ==>
      && !s.stage.IngestFailed? && !s.stage.Cancelled?
      && (s.material || s.stage.Intake?)
      && (PreGate(s.stage) ==> s.failCount < Cap(cfg) && VerdictRemembersFailures(s))
      && (s.stage.FinalGating? && GateCall !in s.calls ==> s.verdict.None?)
      && (s.stage.Closing? ==> Deliverable(s.verdict))
      && (SummaryCall in s.calls ==> s.stage.Closing?))
  }

  ghost predicate AllGate(cfg: Config, t: seq<Session>) {
    forall i :: 0 <= i < |t| ==> GateInv(cfg, t[i])
  }

  lemma AllCat(cfg: Config, t: seq<Session>, u: seq<Session>)
    requires AllGate(cfg, t) && AllGate(cfg, u)
    ensures AllGate(cfg, t + u)
  {
  }

  lemma Logged(s: Session, c: Call)
    ensures multiset(Log(s, c).calls) == multiset(s.calls) + multiset{c}
    ensures forall d :: d in Log(s, c).calls <==> d in s.calls || d == c
  {
  }

  lemma FromCount(s: Session)
    ensures multiset(s.calls)[SummaryCall] == 0 <==> SummaryCall !in s.calls
  {
  }

  lemma SameRowGate(cfg: Config, s: Session, x: Session)
    requires GateInv(cfg, s) && s.status.Active? && PreGate(s.stage)
    requires x.status == s.status && x.failCount == s.failCount && x.verdict == s.verdict && x.calls == s.calls
    requires PreGate(x.stage) && x.material == s.material && (s.material || x.stage.Intake?)
    ensures GateInv(cfg, x)
  {
  }

  lemma EmitGate(cfg: Config, s: Session, e: Env)
    requires GateInv(cfg, s)
    requires s.stage.QaActive? || s.stage.QaActiveReopened?
    ensures AllGate(cfg, EmitT(s, e))
  {
    Logged(s, EmitCall);
  }

  lemma TopicGate(cfg: Config, s: Session, e: Env)
    requires GateInv(cfg, s) && s.stage.SubjectConfirmation?
    ensures AllGate(cfg, TopicT(s, e))
  {
    Logged(s, TopicCall);
  }

  lemma FoundGate(cfg: Config, s: Session, found: seq<Finding>)
    requires GateInv(cfg, s) && s.stage.Scanning? && s.status.Active?
    ensures AllGate(cfg, FoundT(cfg, s, found))
    ensures var x := End(s, FoundT(cfg, s, found)); x.stage.QaActive? && x.status.Active?
  {
    var t := FoundT(cfg, s, found);
    forall i | 0 <= i < |t| ensures GateInv(cfg, t[i]) {
      SameRowGate(cfg, s, t[i]);
    }
  }

  lemma ScanRunGate(cfg: Config, s: Session, e: Env)
    requires GateInv(cfg, s) && s.stage.Scanning? && s.status.Active?
    ensures AllGate(cfg, ScanRunT(cfg, s, e))
    ensures e.scan.Scanned? ==>
              var x := End(s, ScanRunT(cfg, s, e)); GateInv(cfg, x) && x.stage.QaActive? && x.status.Active?
  {
    var a := Log(s, PillarCall);
    var b := Log(a, ResponderCall);
    Logged(s, PillarCall);
    Logged(a, ResponderCall);
    assert GateInv(cfg, a) && GateInv(cfg, b);
    if e.scan.Scanned? {
      FoundGate(cfg, b, e.scan.found);
      AllCat(cfg, [a, b], FoundT(cfg, b, e.scan.found));
    } else if e.scan.ScanStores? {
      StoredGate(cfg, b, e.scan.stored);
      AllCat(cfg, [a, b], Appends(b, Opened(e.scan.stored)));
    }
  }

  lemma StoredGate(cfg: Config, s: Session, stored: seq<Finding>)
    requires GateInv(cfg, s) && s.stage.Scanning? && s.status.Active?
    ensures AllGate(cfg, Appends(s, Opened(stored)))
  {
    var t := Appends(s, Opened(stored));
    forall i | 0 <= i < |t| ensures GateInv(cfg, t[i]) {
      SameRowGate(cfg, s, t[i]);
    }
  }

  lemma ScanGate(cfg: Config, s: Session, e: Env)
    requires GateInv(cfg, s) && s.status.Active?
    ensures AllGate(cfg, ScanT(cfg, s, e))
  {
    if s.stage.Scanning? || s.stage.SubjectConfirmation? {
      var s0 := s.(stage := Scanning);
      ScanRunGate(cfg, s0, e);
      if e.scan.Scanned? {
        EmitGate(cfg, End(s0, ScanRunT(cfg, s0, e)), e);
      }
    }
  }

  lemma RescanGate(cfg: Config, s: Session, e: Env)
    requires GateInv(cfg, s) && s.status.Active? && s.stage.QaActive?
    ensures AllGate(cfg, RescanT(cfg, s, e))
  {
    var t := RescanStartT(s);
    SameRowGate(cfg, s, t[0]);
    SameRowGate(cfg, s, t[1]);
    ScanGate(cfg, t[1], e);
    AllCat(cfg, t, ScanT(cfg, t[1], e));
  }

  lemma QaReplyGate(cfg: Config, s: Session, i: Intent)
    requires GateInv(cfg, s) && s.status.Active? && s.stage.QaActive?
    ensures AllGate(cfg, QaReplyT(cfg, s, i).0)
    ensures var x := End(s, QaReplyT(cfg, s, i).0); GateInv(cfg, x) && x.status.Active? && x.stage.QaActive?
  {
    var t := QaReplyT(cfg, s, i).0;
    QaReplyRow(cfg, s, i);
    forall k | 0 <= k < |t| ensures GateInv(cfg, t[k]) {
      SameRowGate(cfg, s, t[k]);
    }
  }

  /** A reply in Q&A writes no row, and logs no call, before the dispatcher acts on it. */
  lemma QaReplyRow(cfg: Config, s: Session, i: Intent)
    requires s.stage.QaActive?
    ensures forall k :: 0 <= k < |QaReplyT(cfg, s, i).0| ==> SameRow(s, QaReplyT(cfg, s, i).0[k])
  {
  }

  predicate SameRow(s: Session, x: Session) {
    && x.stage == s.stage && x.status == s.status && x.roundNo == s.roundNo
    && x.failCount == s.failCount && x.verdict == s.verdict && x.material == s.material && x.calls == s.calls
  }

  /** The session as the close chain finds it: no gate of this close has run yet. */
  ghost predicate BeforeGate(cfg: Config, s: Session) {
    && GateInv(cfg, s)
    && s.failCount < Cap(cfg)
    && VerdictRemembersFailures(s)
    && SummaryCall !in s.calls
    && !s.stage.Closed?
  }

  lemma MergeGate(cfg: Config, s: Session, e: Env)
    requires BeforeGate(cfg, s)
    ensures AllGate(cfg, MergeT(s, e))
    ensures BeforeGate(cfg, End(s, MergeT(s, e)))
    ensures !MergeAborts(s, e) ==>
              var x := End(s, MergeT(s, e));
              x.material && x.stage == (if e.merge.Fine? then FinalGating else Merging)
                  && (x.status.Active? ==> e.merge.Fine?)
  {
    var a := Log(s, MergeCall);
    LogGate(cfg, s, MergeCall);
    if s.material {
      RowGate(cfg, s, Failing(s, Merging));
      RowGate(cfg, a, a.(stage := FinalGating));
    }
  }

  /** Before its gate a session may move on, or fail. */
  lemma RowGate(cfg: Config, s: Session, x: Session)
    requires BeforeGate(cfg, s) && s.material && x == s.(stage := x.stage, status := x.status)
    requires !x.stage.Closed? && !x.status.Closed? && (x.status.Active? ==> x.stage.FinalGating? && s.status.Active?)
    ensures BeforeGate(cfg, x)
  {
  }

  lemma LogGate(cfg: Config, s: Session, c: Call)
    requires BeforeGate(cfg, s) && !c.SummaryCall?
    ensures BeforeGate(cfg, Log(s, c)) && c in Log(s, c).calls
  {
    Logged(s, c);
    FromCount(s);
    FromCount(Log(s, c));
  }

  lemma GateGate(cfg: Config, s: Session, forced: bool, e: Env)
    requires BeforeGate(cfg, s) && s.material
    requires s.status.Active? ==> s.stage.FinalGating?
    ensures AllGate(cfg, GateT(s, forced, e))
    ensures var x := End(s, GateT(s, forced, e));
            && GateInv(cfg, x) && SummaryCall !in x.calls && !x.stage.Closed? && x.material
            && (!GateAborts(e.gate) && x.status.Active? ==>
              && x.verdict.Some?
              && (x.verdict == Some(Fail) ==> x.failCount == s.failCount + 1)
              && (forced ==> x.verdict == Some(ForcedPartial)))
  {
    LogGate(cfg, s, GateCall);
    match e.gate
    case GateDown =>
    case GateGarbled =>
    case GateRaises =>
    case GateBreaks =>
    case GateSays(_, _, _) =>
      var a := Log(s, GateCall);
      var v := GateVerdict(forced, e.gate);
      if v.Fail? {
        assert GateInv(cfg, a.(failCount := s.failCount + 1, verdict := Some(v)));
      } else {
        assert GateInv(cfg, a.(verdict := Some(v), stage := Closing));
      }
  }

  lemma CloseGate(cfg: Config, s: Session, e: Env)
    requires GateInv(cfg, s) && s.material && SummaryCall !in s.calls && !s.stage.Closed?
    requires s.status.Active? ==> Deliverable(s.verdict)
    ensures AllGate(cfg, CloseT(s, e))
    ensures AllGate(cfg, DeliverT(s.(stage := Closing), e))
  {
    var a := s.(stage := Closing);
    DeliverGate(cfg, a, e);
    AllCat(cfg, [a], DeliverT(a, e));
  }

  lemma DeliverGate(cfg: Config, s: Session, e: Env)
    requires GateInv(cfg, s) && s.material && SummaryCall !in s.calls && s.stage.Closing?
    ensures AllGate(cfg, DeliverT(s, e))
  {
    Logged(s, SummaryCall);
    FromCount(s);
  }

  lemma AfterGateGate(cfg: Config, s: Session, forced: bool, e: Env)
    requires GateInv(cfg, s) && s.material && SummaryCall !in s.calls && !s.stage.Closed?
    requires s.status.Active? ==> s.verdict.Some?
    requires s.status.Active? ==> s.failCount > 0 || s.verdict != Some(Fail)
    requires forced && s.status.Active? ==> s.verdict == Some(ForcedPartial)
    ensures AllGate(cfg, AfterGateT(cfg, s, forced, e))
  {
    if s.verdict != Some(Fail) || forced {
      CloseGate(cfg, s, e);
    } else if OpenBlockers(s.findings) == [] {
      CloseGate(cfg, s.(verdict := Some(ForcedPartial), stage := Closing), e);
    } else if s.failCount < cfg.maxFails {
      var t := ReopenT(s, OpenBlockers(s.findings));
      EmitGate(cfg, End(s, t), e);
    } else {
      CloseGate(cfg, s.(verdict := Some(ForcedPartial)), e);
    }
  }

  lemma GatedGate(cfg: Config, s: Session, forced: bool, e: Env)
    requires BeforeGate(cfg, s) && s.material && (s.status.Active? ==> s.stage.FinalGating?)
    ensures AllGate(cfg, GatedT(cfg, s, forced, e))
  {
    GateGate(cfg, s, forced, e);
    if !GateAborts(e.gate) {
      AfterGateGate(cfg, End(s, GateT(s, forced, e)), forced, e);
      AllCat(cfg, GateT(s, forced, e), AfterGateT(cfg, End(s, GateT(s, forced, e)), forced, e));
    }
  }

  lemma ChainGate(cfg: Config, s: Session, forced: bool, e: Env)
    requires BeforeGate(cfg, s) && s.status.Active?
    ensures AllGate(cfg, ChainT(cfg, s, forced, e))
  {
    var t := MergeT(s, e);
    MergeGate(cfg, s, e);
    if !MergeAborts(s, e) {
      GatedGate(cfg, End(s, t), forced, e);
      AllCat(cfg, t, GatedT(cfg, End(s, t), forced, e));
    }
  }

  lemma ReplyGate(cfg: Config, s: Session, r: Reply, e: Env)
    requires GateInv(cfg, s) && s.status.Active?
    ensures AllGate(cfg, ReplyT(cfg, s, r, e))
  {
    match s.stage
    case AwaitingMaterialConfirm =>
      TopicGate(cfg, s.(stage := SubjectConfirmation), e);
    case SubjectConfirmation =>
      TopicGate(cfg, s, e);
      ScanGate(cfg, s.(stage := Scanning), e);
    case QaActive => QaGate(cfg, s, r, e);
    case QaActiveReopened => QaGate(cfg, s, r, e);
    case AwaitingCloseConfirmation => ConfirmGate(cfg, s, r.intent, e);
    case _ =>
      if BusyKey(s.stage).Some? {
        BusyGate(cfg, s, e);
      } else {
        ChainGate(cfg, s, false, e);
      }
  }

  lemma QaGate(cfg: Config, s: Session, r: Reply, e: Env)
    requires GateInv(cfg, s) && s.status.Active? && (s.stage.QaActive? || s.stage.QaActiveReopened?)
    ensures AllGate(cfg, QaT(cfg, s, r, e))
  {
    var s0 := s.(stage := QaActive);
    match r.supplement
    case Unreadable =>
    case Appended =>
      RescanGate(cfg, s0, e);
      AllCat(cfg, [s0], RescanT(cfg, s0, e));
    case NotMaterial =>
      QaReplyGate(cfg, s0, r.intent);
      var (t, act) := QaReplyT(cfg, s0, r.intent);
      ActGate(cfg, End(s0, t), act, e);
      AllCat(cfg, [s0], t);
      AllCat(cfg, [s0] + t, ActT(cfg, End(s0, t), act, e));
  }

  lemma ActGate(cfg: Config, s: Session, act: Action, e: Env)
    requires GateInv(cfg, s) && s.status.Active? && s.stage.QaActive?
    ensures AllGate(cfg, ActT(cfg, s, act, e))
  {
    match act
    case EmitNext => EmitGate(cfg, s, e);
    case ProposeClose =>
    case GoForceClose => ChainGate(cfg, s, true, e);
    case NoOp =>
  }

  lemma ConfirmGate(cfg: Config, s: Session, i: Intent, e: Env)
    requires GateInv(cfg, s) && s.status.Active? && s.stage.AwaitingCloseConfirmation?
    ensures AllGate(cfg, ConfirmT(cfg, s, i, e))
  {
    if i.Accept? || i.Done? || i.PickA? {
      var a := s.(stage := Merging);
      ChainGate(cfg, a, false, e);
      AllCat(cfg, [a], ChainT(cfg, a, false, e));
    } else if i.ForceClose? {
      ChainGate(cfg, s, true, e);
    } else if i.More? || i.PickB? {
      PullAtCloseGate(cfg, s, e);
    }
  }

  lemma PullAtCloseGate(cfg: Config, s: Session, e: Env)
    requires GateInv(cfg, s) && s.status.Active? && s.stage.AwaitingCloseConfirmation?
    ensures AllGate(cfg, PullAtCloseT(cfg, s, e))
  {
    if Take(s.cursor.deferred, cfg.topN) != [] {
      var t := PulledT(cfg, s);
      SameRowGate(cfg, s, t[0]);
      SameRowGate(cfg, s, t[1]);
      EmitGate(cfg, t[1], e);
      AllCat(cfg, t, EmitT(t[1], e));
    }
  }

  lemma BusyGate(cfg: Config, s: Session, e: Env)
    requires GateInv(cfg, s) && s.status.Active? && BusyKey(s.stage).Some?
    ensures AllGate(cfg, BusyT(cfg, s, e))
  {
    if BusyKey(s.stage).value !in s.calls {
      if s.stage.Scanning? {
        ScanGate(cfg, s, e);
      } else if s.stage.Merging? {
        MergeGate(cfg, s, e);
      } else if s.stage.FinalGating? {
        GateGate(cfg, s, false, e);
      } else {
        CloseGate(cfg, s, e);
      }
    }
  }

  lemma StepGate(cfg: Config, s: Session, e: Event)
    requires GateInv(cfg, s)
    ensures AllGate(cfg, StepT(cfg, s, e))
    ensures GateInv(cfg, Step(cfg, s, e))
  {
    if s.status.Active? {
      ReplyGate(cfg, s, e.reply, e.env);
      var t := StepT(cfg, s, e);
    }
  }

  lemma {:induction false} ExecGate(cfg: Config, s: Session, es: seq<Event>)
    requires GateInv(cfg, s)
    ensures GateInv(cfg, Exec(cfg, s, es))
    decreases |es|
  {
    if es != [] {
      StepGate(cfg, s, es[0]);
      ExecGate(cfg, Step(cfg, s, es[0]), es[1..]);
    }
  }

  /** In every state any run can leave behind, cuts included: at most Cap gate failures
      are counted, before merging there is room for one more, and a counted failure has a
      logged gate call, so that a restart never runs a gate beyond the cap. */
  lemma GateFailureCap(cfg: Config, s: Session, es: seq<Event>)
    requires Fresh(s)
    ensures var x := Exec(cfg, s, es);
            && x.failCount <= Cap(cfg)
            && (x.status.Active? && PreGate(x.stage) ==> x.failCount < Cap(cfg))
            && (x.failCount > 0 ==> GateCall in x.calls)
            && (x.status.Active? && x.stage.FinalGating? && GateCall !in x.calls ==> x.failCount == 0)
  {
    ExecGate(cfg, s, es);
  }

  /** The summary is built, and hence delivery attempted, at most once in any run. */
  lemma SummaryBuiltOnce(cfg: Config, s: Session, es: seq<Event>)
    requires Fresh(s)
    ensures multiset(Exec(cfg, s, es).calls)[SummaryCall] <= 1
  {
    ExecGate(cfg, s, es);
  }

  /** An ACTIVE session that is closing has a verdict other than FAIL. */
  lemma ActiveClosingHasVerdict(cfg: Config, s: Session, es: seq<Event>)
    requires Fresh(s)
    ensures var x := Exec(cfg, s, es);
            x.status.Active? && x.stage.Closing? ==> Deliverable(x.verdict)
  {
    ExecGate(cfg, s, es);
  }
}
