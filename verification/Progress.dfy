/** Liveness of a session: replies make progress, and a dialogue ends. */
module Progress {
  import opened Models
  import opened Protocol
  import opened GateSafety
  import opened Coverage
  import Gaps

  predicate InDialogue(s: Session) {
    s.status.Active? && (s.stage.QaActive? || s.stage.QaActiveReopened? || s.stage.AwaitingCloseConfirmation?)
  }

  /** In the close, from which no message leads back to the dialogue, or no longer ACTIVE. */
  predicate PastDialogue(s: Session) {
    !s.status.Active? || s.stage.Merging? || s.stage.FinalGating? || s.stage.Closing?
  }

  lemma BusyStaysPast(cfg: Config, s: Session, e: Env, k: nat)
    requires s.status.Active? && (s.stage.Merging? || s.stage.FinalGating? || s.stage.Closing?)
    requires k < |BusyT(cfg, s, e)|
    ensures PastDialogue(BusyT(cfg, s, e)[k])
  {
  }

  lemma StaysPast(cfg: Config, s: Session, e: Event)
    requires PastDialogue(s)
    ensures PastDialogue(Step(cfg, s, e))
  {
    var t := StepT(cfg, s, e);
    if t != [] {
      var u := BusyT(cfg, s, e.env);
      assert t == Kept(u, e.cut);
      BusyStaysPast(cfg, s, e.env, |t| - 1);
      assert t[|t| - 1] == u[|t| - 1];
    }
  }

  // ── the measure ─────────────────────────────────────────

  /** Replies that change nothing: questions, unreadable material, unclear answers to the close
      prompt, `more` at the close prompt when nothing can be pulled, and a forced close whose merge
      raises before it has left the stage. */
  predicate Stutters(cfg: Config, s: Session, r: Reply, e: Env) {
    if s.stage.AwaitingCloseConfirmation? then
      || r.intent.Reject? || r.intent.Modify? || r.intent.Pass? || r.intent.Custom?
      || r.intent.Question? || r.intent.PickC?
      || ((r.intent.More? || r.intent.PickB?) && Take(s.cursor.deferred, cfg.topN) == [])
      || (r.intent.ForceClose? && MergeAborts(s, e))
    else
      || r.supplement.Unreadable?
      || (r.supplement.NotMaterial? && r.intent.Question? && s.cursor.current.Some?)
      || (r.supplement.NotMaterial? && r.intent.ForceClose? && MergeAborts(s, e))
  }

  function Rank(st: Stage): nat { if st.AwaitingCloseConfirmation? then 0 else 1 }

  /** Lexicographic: gates left, findings deferred, stage, questions in line. */
  ghost predicate Less(cfg: Config, x: Session, s: Session) {
    var a, b := Cap(cfg) - x.failCount, Cap(cfg) - s.failCount;
    var da, db := |x.cursor.deferred|, |s.cursor.deferred|;
    || a < b
    || (a == b && da < db)
    || (a == b && da == db && Rank(x.stage) < Rank(s.stage))
    || (a == b && da == db && Rank(x.stage) == Rank(s.stage) && Remaining(x.cursor) < Remaining(s.cursor))
  }

  /** A single number that falls with every reply that is not a stutter. */
  function Effort(cfg: Config, s: Session): int {
    Remaining(s.cursor) + Rounds(Reserve(cfg, s), |s.findings|)
    + 2 * |s.cursor.deferred| + 2 * (Cap(cfg) - s.failCount) + Rank(s.stage)
  }

  ghost predicate Falls(cfg: Config, x: Session, s: Session) {
    if InDialogue(x) then Less(cfg, x, s) && Effort(cfg, x) < Effort(cfg, s) else PastDialogue(x)
  }

  /** The measure is not exceeded. */
  ghost predicate NotMore(cfg: Config, x: Session, s: Session) {
    if InDialogue(x) then Effort(cfg, x) <= Effort(cfg, s) else PastDialogue(x)
  }

  ghost predicate AllNotMore(cfg: Config, t: seq<Session>, s: Session) {
    forall i :: 0 <= i < |t| ==> NotMore(cfg, t[i], s)
  }

  lemma NotMoreCat(cfg: Config, t: seq<Session>, u: seq<Session>, s: Session)
    requires AllNotMore(cfg, t, s) && AllNotMore(cfg, u, s)
    ensures AllNotMore(cfg, t + u, s)
  {
  }

  /** All fields of the measure. */
  predicate SameMeasure(s: Session, x: Session) {
    && x.cursor == s.cursor && |x.findings| == |s.findings| && x.failCount == s.failCount
    && (x.status.Active? ==> s.status.Active? && x.stage == s.stage)
  }

  lemma EmitEnd(s: Session, e: Env)
    ensures forall i :: 0 <= i < |EmitT(s, e)| ==> SameMeasure(s, EmitT(s, e)[i])
    ensures SameMeasure(s, End(s, EmitT(s, e)))
  {
  }

  lemma EmitNotMore(cfg: Config, s: Session, y: Session, e: Env)
    requires NotMore(cfg, y, s) && InDialogue(y)
    ensures AllNotMore(cfg, EmitT(y, e), s)
  {
    EmitEnd(y, e);
    forall i | 0 <= i < |EmitT(y, e)| ensures NotMore(cfg, EmitT(y, e)[i], s) {
      assert SameMeasure(y, EmitT(y, e)[i]);
    }
  }

  // ── the close chain ─────────────────────────────────────

  /** The cursor of a reopened session, seen from the session before the close. */
  ghost predicate ReopenedFrom(s: Session, x: Session) {
    && x.findings == s.findings
    && OpenBlockers(s.findings) != []
    && x.cursor == Reopened(s.cursor, OpenBlockers(s.findings))
  }

  /** What the gate of a close can leave behind. */
  ghost predicate GatedWrite(cfg: Config, s: Session, x: Session) {
    || PastDialogue(x)
    || (x.stage.QaActiveReopened? && x.failCount == s.failCount + 1 < Cap(cfg) && ReopenedFrom(s, x))
  }

  /** How an ACTIVE session of the dialogue comes out of a close. */
  ghost predicate ChainWrite(cfg: Config, s: Session, x: Session) {
    GatedWrite(cfg, s, x) || (SameMeasure(s, x) && x.status.Active?)
  }

  lemma CloseWrites(s: Session, e: Env)
    ensures forall i :: 0 <= i < |CloseT(s, e)| ==> PastDialogue(CloseT(s, e)[i])
  {
  }

  ghost predicate AfterGateWrite(cfg: Config, s: Session, x: Session) {
    || PastDialogue(x)
    || (x.stage.QaActiveReopened? && s.verdict == Some(Fail) && x.failCount == s.failCount < cfg.maxFails
        && ReopenedFrom(s, x) && s.status.Active?)
  }

  lemma AfterGateWrites(cfg: Config, s: Session, forced: bool, e: Env, k: nat)
    requires s.status.Active? ==> s.stage.FinalGating? || s.stage.Closing?
    requires k < |AfterGateT(cfg, s, forced, e)|
    ensures AfterGateWrite(cfg, s, AfterGateT(cfg, s, forced, e)[k])
  {
    if s.verdict == Some(Fail) && !forced && OpenBlockers(s.findings) != [] && s.failCount < cfg.maxFails {
      var t := ReopenT(s, OpenBlockers(s.findings));
      EmitWrites(End(s, t), e);
      if k >= |t| {
        assert AfterGateT(cfg, s, forced, e)[k] == EmitT(End(s, t), e)[k - |t|];
      }
    } else {
      CloseWrites(s, e);
      CloseWrites(s.(verdict := Some(ForcedPartial), stage := Closing), e);
      CloseWrites(s.(verdict := Some(ForcedPartial)), e);
    }
  }

  lemma EmitWrites(s: Session, e: Env)
    ensures forall i :: 0 <= i < |EmitT(s, e)| ==>
              var x := EmitT(s, e)[i];
              x.findings == s.findings && x.cursor == s.cursor && x.failCount == s.failCount
              && (x.status.Active? ==> s.status.Active? && x.stage == s.stage)
  {
  }

  lemma GatedWrites(cfg: Config, s: Session, forced: bool, e: Env, k: nat)
    requires s.status.Active? ==> s.stage.FinalGating? && VerdictRemembersFailures(s)
    requires k < |GatedT(cfg, s, forced, e)|
    ensures GatedWrite(cfg, s, GatedT(cfg, s, forced, e)[k])
  {
    var t := GateT(s, forced, e);
    var y := End(s, t);
    GateWrites(s, forced, e);
    if k >= |t| {
      AfterGateWrites(cfg, y, forced, e, k - |t|);
      GatedFromAfter(cfg, s, y, AfterGateT(cfg, y, forced, e)[k - |t|]);
    } else {
      AtClose(cfg, s, t[k]);
    }
  }

  lemma AtClose(cfg: Config, s: Session, x: Session)
    ensures PastDialogue(x) ==> GatedWrite(cfg, s, x)
  {
  }

  lemma GatedFromAfter(cfg: Config, s: Session, y: Session, x: Session)
    requires AfterGateWrite(cfg, y, x)
    requires y.findings == s.findings && y.cursor == s.cursor
    requires y.status.Active? && y.verdict == Some(Fail) ==> y.failCount == s.failCount + 1
    ensures GatedWrite(cfg, s, x)
  {
    hide Reopened, OpenBlockers;
  }

  lemma GateWrites(s: Session, forced: bool, e: Env)
    requires s.status.Active? ==> s.stage.FinalGating? && VerdictRemembersFailures(s)
    ensures forall i :: 0 <= i < |GateT(s, forced, e)| ==> PastDialogue(GateT(s, forced, e)[i])
    ensures var y := End(s, GateT(s, forced, e));
            && y.findings == s.findings && y.cursor == s.cursor
            && (y.status.Active? && !GateAborts(e.gate) ==>
                  && (y.stage.FinalGating? || y.stage.Closing?)
                  && (y.verdict == Some(Fail) ==> y.failCount == s.failCount + 1))
            && (y.status.Active? ==> s.status.Active?)
  {
  }

  lemma ChainWrites(cfg: Config, s: Session, forced: bool, e: Env, k: nat)
    requires s.status.Active? && s.material && VerdictRemembersFailures(s) && k < |ChainT(cfg, s, forced, e)|
    ensures ChainWrite(cfg, s, ChainT(cfg, s, forced, e)[k])
  {
    hide GatedT, ReopenedFrom;
    var t := MergeT(s, e);
    MergeWrites(cfg, s, e);
    if k >= |t| {
      assert ChainT(cfg, s, forced, e)[k] == GatedT(cfg, End(s, t), forced, e)[k - |t|];
      GatedWrites(cfg, End(s, t), forced, e, k - |t|);
      SameReopening(s, End(s, t), ChainT(cfg, s, forced, e)[k]);
    }
  }

  lemma MergeWrites(cfg: Config, s: Session, e: Env)
    requires s.status.Active? && s.material
    ensures forall i :: 0 <= i < |MergeT(s, e)| ==> ChainWrite(cfg, s, MergeT(s, e)[i])
    ensures !MergeAborts(s, e) ==>
              var x := End(s, MergeT(s, e));
              && x.findings == s.findings && x.cursor == s.cursor
              && x.failCount == s.failCount && x.verdict == s.verdict
              && (x.status.Active? ==> x.stage.FinalGating?)
  {
    hide ReopenedFrom;
  }

  lemma SameReopening(s: Session, y: Session, x: Session)
    requires y.findings == s.findings && y.cursor == s.cursor
    ensures ReopenedFrom(y, x) ==> ReopenedFrom(s, x)
  {
  }

  lemma ReopenFalls(cfg: Config, s: Session, x: Session)
    requires x.failCount == s.failCount + 1 < Cap(cfg) && ReopenedFrom(s, x)
    requires x.stage.QaActiveReopened?
    ensures Falls(cfg, x, s)
  {
    var regs := OpenBlockers(s.findings);
    OpenBlockersAreFindings(s.findings);
    ReopenedCursor(s.cursor, regs);
    FewerRounds(Reserve(cfg, x), Reserve(cfg, s), |s.findings|);
    assert x.cursor.deferred == s.cursor.deferred;
  }

  lemma ChainNotMore(cfg: Config, s: Session, a: Session, forced: bool, e: Env)
    requires a.status.Active? && a.material && VerdictRemembersFailures(a) && InDialogue(s)
    requires SameButStage(s, a)
    ensures AllNotMore(cfg, ChainT(cfg, a, forced, e), s)
  {
    var t := ChainT(cfg, a, forced, e);
    forall k | 0 <= k < |t| ensures NotMore(cfg, t[k], s) {
      ChainWrites(cfg, a, forced, e, k);
      WriteNotMore(cfg, s, a, t[k]);
    }
  }

  /** The stage at which a close begins: still in Q&A, still at the prompt, or MERGING. */
  predicate SameButStage(s: Session, a: Session) {
    && a == s.(stage := a.stage)
    && (|| a.stage.Merging?
        || (a.stage.QaActive? && Rank(s.stage) == 1)
        || (a.stage.AwaitingCloseConfirmation? && Rank(s.stage) == 0))
  }

  lemma WriteNotMore(cfg: Config, s: Session, a: Session, x: Session)
    requires InDialogue(s) && SameButStage(s, a) && ChainWrite(cfg, a, x)
    ensures NotMore(cfg, x, s)
  {
    hide Reopened, OpenBlockers;
    if !PastDialogue(x) {
      if SameMeasure(a, x) && x.status.Active? {
        assert Reserve(cfg, x) == Reserve(cfg, s);
      } else {
        ReopenFalls(cfg, s, x);
      }
    }
  }

  /** A close that does not raise at its merge is a step forward. */
  lemma ChainFalls(cfg: Config, s: Session, a: Session, forced: bool, e: Env)
    requires a.status.Active? && a.material && VerdictRemembersFailures(a) && PreGate(a.stage) && InDialogue(s)
    requires SameButStage(s, a)
    ensures var x := End(a, ChainT(cfg, a, forced, e));
            if MergeAborts(a, e) then x == a || x == Log(a, MergeCall) else Falls(cfg, x, s)
  {
    var t := MergeT(a, e);
    if MergeAborts(a, e) {
      assert t + [] == t;
    } else {
      var u := GatedT(cfg, End(a, t), forced, e);
      EndCat(a, t, u);
      if u != [] {
        GatedWrites(cfg, End(a, t), forced, e, |u| - 1);
        GatedFalls(cfg, s, a, End(End(a, t), u));
      }
    }
  }

  lemma GatedFalls(cfg: Config, s: Session, a: Session, x: Session)
    requires InDialogue(s) && SameButStage(s, a)
    requires GatedWrite(cfg, a, x)
    ensures Falls(cfg, x, s)
  {
    hide Reopened, OpenBlockers, Effort, Less;
    if !PastDialogue(x) {
      ReopenFalls(cfg, s, x);
    }
  }

  // ── replies ─────────────────────────────────────────────

  lemma QaReplyEnd(cfg: Config, s: Session, i: Intent)
    requires s.status.Active? && s.stage.QaActive?
    ensures var (t, act) := QaReplyT(cfg, s, i);
            var x := End(s, t);
            && x.status.Active? && x.stage.QaActive? && x.failCount == s.failCount && |x.findings| == |s.findings|
            && (act.EmitNext? ==>
                  || (|x.cursor.deferred| < |s.cursor.deferred| && Remaining(x.cursor) == Remaining(s.cursor))
                  || (x.cursor.deferred == s.cursor.deferred && Remaining(x.cursor) == Remaining(s.cursor) - 1))
            && (act.ProposeClose? ==>
                  x.cursor.deferred == s.cursor.deferred && Remaining(x.cursor) <= Remaining(s.cursor))
            && (act.GoForceClose? || act.NoOp? ==> x == s)
            && (act.NoOp? <==> i.Question? && s.cursor.current.Some?)
            && (act.GoForceClose? <==> i.ForceClose?)
  {
    if i.More? {
      assert Take(s.cursor.deferred, cfg.topN) + Drop(s.cursor.deferred, cfg.topN) == s.cursor.deferred;
    }
  }

  /** No write of a reply exceeds the measure. */
  lemma QaReplyNotMore(cfg: Config, s: Session, i: Intent)
    requires s.status.Active? && s.stage.QaActive?
    ensures AllNotMore(cfg, QaReplyT(cfg, s, i).0, s)
  {
    var t := QaReplyT(cfg, s, i).0;
    QaReplyLine(cfg, s, i);
    forall k | 0 <= k < |t| ensures NotMore(cfg, t[k], s) {
      LineMeasure(cfg, s, t[k]);
    }
  }

  /** The row is as before, and there is no more to be asked. */
  predicate LineNotMore(s: Session, x: Session) {
    && x.status == s.status && x.stage == s.stage && x.failCount == s.failCount && |x.findings| == |s.findings|
    && Remaining(x.cursor) + 2 * |x.cursor.deferred| <= Remaining(s.cursor) + 2 * |s.cursor.deferred|
  }

  lemma LineMeasure(cfg: Config, s: Session, x: Session)
    requires InDialogue(s) && LineNotMore(s, x)
    ensures NotMore(cfg, x, s)
  {
    hide Rounds;
  }

  lemma QaReplyLine(cfg: Config, s: Session, i: Intent)
    requires s.status.Active? && s.stage.QaActive?
    ensures forall k :: 0 <= k < |QaReplyT(cfg, s, i).0| ==> LineNotMore(s, QaReplyT(cfg, s, i).0[k])
  {
    if !i.More? {
    } else {
      assert Take(s.cursor.deferred, cfg.topN) + Drop(s.cursor.deferred, cfg.topN) == s.cursor.deferred;
    }
  }

  /** What a stutter leaves behind: the same session, but for the reopened stage and the log. */
  predicate Stuttered(s: Session, x: Session) {
    && x == s.(stage := if s.stage.QaActiveReopened? then QaActive else s.stage, calls := x.calls)
    && (x.calls == s.calls || x.calls == s.calls + [MergeCall])
  }

  lemma QaProgress(cfg: Config, s: Session, r: Reply, e: Env)
    requires GateInv(cfg, s) && s.status.Active?
    requires (s.stage.QaActive? || s.stage.QaActiveReopened?) && r.supplement.NotMaterial?
    ensures var x := End(s, QaT(cfg, s, r, e));
            if Stutters(cfg, s, r, e) then Stuttered(s, x) else Falls(cfg, x, s)
  {
    QaEnd(cfg, s, r, e);
    var s0 := s.(stage := QaActive);
    QaReplyEnd(cfg, s0, r.intent);
    var (t, act) := QaReplyT(cfg, s0, r.intent);
    if act.GoForceClose? {
      assert GateInv(cfg, s) ==> s.material && VerdictRemembersFailures(s) by {
        Remembers(cfg, s);
      }
      ChainFalls(cfg, s, s0, true, e);
    } else if act.NoOp? {
    } else {
      ActFalls(cfg, s, End(s0, t), act, e);
    }
  }

  lemma Remembers(cfg: Config, s: Session)
    ensures GateInv(cfg, s) && InDialogue(s) ==> s.material && VerdictRemembersFailures(s) && PreGate(s.stage)
  {
  }

  lemma ActFalls(cfg: Config, s: Session, y: Session, act: Action, e: Env)
    requires InDialogue(s) && Rank(s.stage) == 1
    requires y.status.Active? && y.stage.QaActive?
    requires y.failCount == s.failCount && |y.findings| == |s.findings|
    requires act.EmitNext? ==>
               || (|y.cursor.deferred| < |s.cursor.deferred| && Remaining(y.cursor) == Remaining(s.cursor))
               || (y.cursor.deferred == s.cursor.deferred && Remaining(y.cursor) == Remaining(s.cursor) - 1)
    requires act.ProposeClose? ==> y.cursor.deferred == s.cursor.deferred && Remaining(y.cursor) <= Remaining(s.cursor)
    requires act.EmitNext? || act.ProposeClose?
    ensures Falls(cfg, End(y, ActT(cfg, y, act, e)), s)
  {
    if act.EmitNext? {
      EmitEnd(y, e);
    }
  }

  lemma PulledEnd(cfg: Config, s: Session)
    requires s.status.Active? && s.stage.AwaitingCloseConfirmation?
    requires Take(s.cursor.deferred, cfg.topN) != []
    ensures forall i :: 0 <= i < 2 ==>
              var x := PulledT(cfg, s)[i];
              && InDialogue(x)
              && |x.cursor.deferred| < |s.cursor.deferred| && Remaining(x.cursor) <= Remaining(s.cursor)
              && x.findings == s.findings && x.failCount == s.failCount
  {
    var d := s.cursor.deferred;
    assert Take(d, cfg.topN) + Drop(d, cfg.topN) == d;
  }

  lemma PullProgress(cfg: Config, s: Session, e: Env)
    requires s.status.Active? && s.stage.AwaitingCloseConfirmation?
    ensures AllNotMore(cfg, PullAtCloseT(cfg, s, e), s)
    ensures var x := End(s, PullAtCloseT(cfg, s, e));
            if Take(s.cursor.deferred, cfg.topN) == [] then x == s else Falls(cfg, x, s)
  {
    if Take(s.cursor.deferred, cfg.topN) != [] {
      var t := PulledT(cfg, s);
      var b := End(s, t);
      assert PullAtCloseT(cfg, s, e) == t + EmitT(b, e) && |t| == 2;
      PulledEnd(cfg, s);
      EndCat(s, t, EmitT(b, e));
      EmitEnd(b, e);
      DeferredFalls(cfg, s, t[0]);
      DeferredFalls(cfg, s, b);
      DeferredFalls(cfg, s, End(b, EmitT(b, e)));
      EmitNotMore(cfg, s, b, e);
      NotMoreCat(cfg, t, EmitT(b, e), s);
    }
  }

  /** Fewer findings are deferred, at most as many are in line, and nothing else has changed. */
  lemma DeferredFalls(cfg: Config, s: Session, x: Session)
    requires InDialogue(s) && (x.status.Active? ==> InDialogue(x))
    requires |x.cursor.deferred| < |s.cursor.deferred| && Remaining(x.cursor) <= Remaining(s.cursor)
    requires |x.findings| == |s.findings| && x.failCount == s.failCount
    ensures Falls(cfg, x, s) && NotMore(cfg, x, s)
  {
    hide Rounds;
  }

  lemma ConfirmProgress(cfg: Config, s: Session, r: Reply, e: Env)
    requires GateInv(cfg, s) && s.status.Active? && s.stage.AwaitingCloseConfirmation?
    ensures var x := End(s, ConfirmT(cfg, s, r.intent, e));
            if Stutters(cfg, s, r, e) then Stuttered(s, x) else Falls(cfg, x, s)
  {
    var i := r.intent;
    Remembers(cfg, s);
    if i.Accept? || i.Done? || i.PickA? {
      var a := s.(stage := Merging);
      ChainFalls(cfg, s, a, false, e);
      EndCat(s, [a], ChainT(cfg, a, false, e));
    } else if i.ForceClose? {
      ChainFalls(cfg, s, s, true, e);
    } else if i.More? || i.PickB? {
      PullProgress(cfg, s, e);
    }
  }

  /** A reply in the dialogue that is handled to its end, or to where it raises, and brings no new
      material either is a stutter, which leaves the session as it was, or strictly lowers the
      measure, or ends the dialogue; whatever earlier cuts have left behind. */
  lemma ReplyProgress(cfg: Config, s: Session, r: Reply, e: Env)
    requires GateInv(cfg, s) && InDialogue(s)
    requires s.stage.AwaitingCloseConfirmation? || !r.supplement.Appended?
    ensures var x := Step(cfg, s, Event(r, e, None));
            && (!Gaps.Gap(s) ==> !Gaps.Gap(x))
            && if Stutters(cfg, s, r, e) then Stuttered(s, x) else Falls(cfg, x, s)
  {
    var v := Event(r, e, None);
    if !Gaps.Gap(s) {
      Gaps.StepNoGap(cfg, s, v);
    }
    ReplyEnds(cfg, s, r, e);
    if s.stage.AwaitingCloseConfirmation? {
      ConfirmProgress(cfg, s, r, e);
    } else if r.supplement.NotMaterial? {
      QaProgress(cfg, s, r, e);
    }
  }

  lemma ReplyEnds(cfg: Config, s: Session, r: Reply, e: Env)
    requires InDialogue(s)
    requires s.stage.AwaitingCloseConfirmation? || !r.supplement.Appended?
    ensures var x := Step(cfg, s, Event(r, e, None));
            if s.stage.AwaitingCloseConfirmation? then x == End(s, ConfirmT(cfg, s, r.intent, e))
            else if r.supplement.NotMaterial? then x == End(s, QaT(cfg, s, r, e))
            else Stutters(cfg, s, r, e) && Stuttered(s, x)
  {
    hide ConfirmT, QaReplyT, Take;
    assert StepT(cfg, s, Event(r, e, None)) == ReplyT(cfg, s, r, e);
  }

  /** And no write of a reply, wherever it is cut short, exceeds the measure. */
  lemma WritesNotMore(cfg: Config, s: Session, r: Reply, e: Env)
    requires GateInv(cfg, s) && InDialogue(s)
    requires s.stage.AwaitingCloseConfirmation? || !r.supplement.Appended?
    ensures AllNotMore(cfg, ReplyT(cfg, s, r, e), s)
  {
    Remembers(cfg, s);
    if s.stage.AwaitingCloseConfirmation? {
      ConfirmNotMore(cfg, s, r.intent, e);
    } else {
      QaNotMore(cfg, s, r, e);
    }
  }

  lemma ConfirmNotMore(cfg: Config, s: Session, i: Intent, e: Env)
    requires s.material && VerdictRemembersFailures(s) && s.status.Active? && s.stage.AwaitingCloseConfirmation?
    ensures AllNotMore(cfg, ConfirmT(cfg, s, i, e), s)
  {
    hide ChainT, PullAtCloseT, Effort;
    if i.Accept? || i.Done? || i.PickA? {
      var a := s.(stage := Merging);
      ChainNotMore(cfg, s, a, false, e);
      NotMoreCat(cfg, [a], ChainT(cfg, a, false, e), s);
    } else if i.ForceClose? {
      ChainNotMore(cfg, s, s, true, e);
    } else if i.More? || i.PickB? {
      PullProgress(cfg, s, e);
    }
  }

  lemma QaNotMore(cfg: Config, s: Session, r: Reply, e: Env)
    requires s.material && VerdictRemembersFailures(s) && s.status.Active?
    requires (s.stage.QaActive? || s.stage.QaActiveReopened?) && !r.supplement.Appended?
    ensures AllNotMore(cfg, QaT(cfg, s, r, e), s)
  {
    var s0 := s.(stage := QaActive);
    assert AllNotMore(cfg, [s0], s);
    if r.supplement.NotMaterial? {
      var (t, act) := QaReplyT(cfg, s0, r.intent);
      QaReplyNotMore(cfg, s0, r.intent);
      QaReplyEnd(cfg, s0, r.intent);
      ActNotMore(cfg, s, s0, End(s0, t), act, e);
      forall i | 0 <= i < |t| ensures NotMore(cfg, t[i], s) {
        assert NotMore(cfg, t[i], s0);
      }
      NotMoreCat(cfg, [s0], t, s);
      NotMoreCat(cfg, [s0] + t, ActT(cfg, End(s0, t), act, e), s);
    }
  }

  lemma ActNotMore(cfg: Config, s: Session, s0: Session, y: Session, act: Action, e: Env)
    requires s.material && VerdictRemembersFailures(s) && InDialogue(s) && Rank(s.stage) == 1
    requires s0 == s.(stage := QaActive)
    requires y.status.Active? && y.stage.QaActive? && y.failCount == s.failCount && |y.findings| == |s.findings|
    requires act.EmitNext? ==>
               || (|y.cursor.deferred| < |s.cursor.deferred| && Remaining(y.cursor) == Remaining(s.cursor))
               || (y.cursor.deferred == s.cursor.deferred && Remaining(y.cursor) == Remaining(s.cursor) - 1)
    requires act.ProposeClose? ==> y.cursor.deferred == s.cursor.deferred && Remaining(y.cursor) <= Remaining(s.cursor)
    requires act.GoForceClose? || act.NoOp? ==> y == s0
    ensures AllNotMore(cfg, ActT(cfg, y, act, e), s)
  {
    hide ChainT, Rounds;
    if act.EmitNext? {
      EmitNotMore(cfg, s, y, e);
    } else if act.GoForceClose? {
      ChainNotMore(cfg, s, s0, true, e);
    }
  }

  // ── runs ────────────────────────────────────────────────

  /** Runs without new material; handlers may be cut short. */
  predicate NoSupplement(es: seq<Event>) {
    forall i :: 0 <= i < |es| ==> !es[i].reply.supplement.Appended?
  }

  /** A reply heard in the dialogue, handled to its end, that is not a stutter. */
  predicate Counts(cfg: Config, s: Session, e: Event) {
    InDialogue(s) && e.cut.None? && !Stutters(cfg, s, e.reply, e.env)
  }

  /** How many replies of a run are such. */
  function Effective(cfg: Config, s: Session, es: seq<Event>): nat
    decreases |es|
  {
    if es == [] then 0
    else (if Counts(cfg, s, es[0]) then 1 else 0) + Effective(cfg, Step(cfg, s, es[0]), es[1..])
  }

  lemma {:induction false} OutOfDialogue(cfg: Config, s: Session, es: seq<Event>)
    requires PastDialogue(s)
    ensures Effective(cfg, s, es) == 0
    decreases |es|
  {
    if es != [] {
      StaysPast(cfg, s, es[0]);
      OutOfDialogue(cfg, Step(cfg, s, es[0]), es[1..]);
    }
  }

  lemma EffortBounds(cfg: Config, s: Session)
    requires Inv(cfg, s) && InDialogue(s)
    ensures 0 <= Effort(cfg, s) <= 3 * (Cap(cfg) * |s.findings|) + 2 * Cap(cfg) + 1
  {
    RoundsProduct(Cap(cfg), |s.findings|);
  }

  lemma StutteredSame(cfg: Config, s: Session, x: Session)
    requires InDialogue(s) && Stuttered(s, x)
    ensures InDialogue(x) && Effort(cfg, x) == Effort(cfg, s)
  {
  }

  /** One reply of such a run, with everything a run needs to know about it. */
  lemma DialogueStep(cfg: Config, s: Session, e: Event)
    requires Inv(cfg, s) && InDialogue(s) && !e.reply.supplement.Appended?
    ensures var x := Step(cfg, s, e);
            && Inv(cfg, x)
            && (if InDialogue(x) then Effort(cfg, x) + (if Counts(cfg, s, e) then 1 else 0) <= Effort(cfg, s)
                else PastDialogue(x))
  {
    StepInv(cfg, s, e);
    var x := Step(cfg, s, e);
    if e.cut.None? {
      assert e == Event(e.reply, e.env, None);
      Whole(cfg, s, e);
      if Stutters(cfg, s, e.reply, e.env) {
        StutteredSame(cfg, s, x);
      }
    } else {
      CutStep(cfg, s, e);
    }
  }

  lemma Whole(cfg: Config, s: Session, e: Event)
    requires Inv(cfg, s) && InDialogue(s) && !e.reply.supplement.Appended? && e.cut.None?
    ensures var x := Step(cfg, s, e); if Stutters(cfg, s, e.reply, e.env) then Stuttered(s, x) else Falls(cfg, x, s)
  {
    assert e == Event(e.reply, e.env, None);
    ReplyProgress(cfg, s, e.reply, e.env);
  }

  lemma CutStep(cfg: Config, s: Session, e: Event)
    requires Inv(cfg, s) && InDialogue(s) && !e.reply.supplement.Appended?
    ensures NotMore(cfg, Step(cfg, s, e), s)
  {
    var t := StepT(cfg, s, e);
    WritesNotMore(cfg, s, e.reply, e.env);
    if t != [] {
      assert t[|t| - 1] == ReplyT(cfg, s, e.reply, e.env)[|t| - 1];
    }
  }

  /** A dialogue without new material is over after a bounded number of effective replies, however
      many others are stutters or are cut short. */
  lemma {:induction false} DialogueEnds(cfg: Config, s: Session, es: seq<Event>)
    requires Inv(cfg, s) && InDialogue(s) && NoSupplement(es)
    ensures Effective(cfg, s, es) <= Effort(cfg, s) + 1
    decreases |es|
  {
    EffortBounds(cfg, s);
    if es != [] {
      DialogueStep(cfg, s, es[0]);
      var x := Step(cfg, s, es[0]);
      assert NoSupplement(es[1..]);
      if InDialogue(x) {
        DialogueEnds(cfg, x, es[1..]);
      } else {
        OutOfDialogue(cfg, x, es[1..]);
      }
    }
  }

  /** In numbers: 3 * Cap effective replies per finding, and 2 * Cap + 2 more. */
  lemma EffectiveRepliesBounded(cfg: Config, s: Session, es: seq<Event>)
    requires Inv(cfg, s) && InDialogue(s) && NoSupplement(es)
    ensures Effective(cfg, s, es) <= 3 * (Cap(cfg) * |s.findings|) + 2 * Cap(cfg) + 2
  {
    DialogueEnds(cfg, s, es);
    EffortBounds(cfg, s);
  }
}
