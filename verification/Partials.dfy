/** Where FORCED_PARTIAL comes from, write by write and over runs, and exactly which cuts make a
    forced close forget that it was forced. */
module Partials {
  import opened Models
  import opened Protocol
  import opened GateSafety
  import opened Verdicts
  import opened Wedges

  predicate Partial(s: Session) { s.verdict == Some(ForcedPartial) }

  ghost predicate NonePartial(t: seq<Session>) {
    forall i :: 0 <= i < |t| ==> !Partial(t[i])
  }

  /** The reply starts a close that gets through merge and gate and has a reason to end so. */
  predicate PartialCause(cfg: Config, s: Session, r: Reply, e: Env) {
    && StartsClose(s, r).Some?
    && !MergeAborts(s, e)
    && PartialReason(cfg, s, StartsClose(s, r).value, e.gate)
  }

  lemma NoneCat(t: seq<Session>, u: seq<Session>)
    requires NonePartial(t) && NonePartial(u)
    ensures NonePartial(t + u)
  {
  }

  // ── handlers that never give it ─────────────────────────

  lemma EmitNone(s: Session, e: Env)
    requires !Partial(s)
    ensures NonePartial(EmitT(s, e))
  {
  }

  lemma ScanNone(cfg: Config, s: Session, e: Env)
    requires !Partial(s)
    ensures NonePartial(ScanT(cfg, s, e))
  {
    if s.stage.Scanning? || s.stage.SubjectConfirmation? {
      var s0 := s.(stage := Scanning);
      var t := ScanRunT(cfg, s0, e);
      ScanRunNone(cfg, s0, e);
      if e.scan.Scanned? {
        EmitNone(End(s0, t), e);
      }
    }
  }

  lemma ScanRunNone(cfg: Config, s: Session, e: Env)
    requires !Partial(s)
    ensures NonePartial(ScanRunT(cfg, s, e)) && !Partial(End(s, ScanRunT(cfg, s, e)))
  {
    var a := Log(s, PillarCall);
    var b := Log(a, ResponderCall);
    if e.scan.Scanned? {
      NoneCat([a, b], FoundT(cfg, b, e.scan.found));
    } else if e.scan.ScanStores? {
      NoneCat([a, b], Appends(b, Opened(e.scan.stored)));
    }
  }

  lemma BusyNone(cfg: Config, s: Session, e: Env)
    requires !Partial(s) && BusyKey(s.stage).Some?
    ensures NonePartial(BusyT(cfg, s, e))
  {
    if s.stage.Scanning? {
      ScanNone(cfg, s, e);
    }
  }

  lemma SubjectNone(cfg: Config, s: Session, r: Reply, e: Env)
    requires !Partial(s)
    ensures NonePartial(SubjectT(cfg, s, r, e))
  {
    var a := s.(stage := Scanning);
    ScanNone(cfg, a, e);
    NoneCat([a], ScanT(cfg, a, e));
  }

  lemma PullNone(cfg: Config, s: Session, e: Env)
    requires !Partial(s)
    ensures NonePartial(PullAtCloseT(cfg, s, e))
  {
    var t := PulledT(cfg, s);
    EmitNone(End(s, t), e);
    NoneCat(t, EmitT(End(s, t), e));
  }

  lemma QaNone(cfg: Config, s: Session, r: Reply, e: Env)
    requires !Partial(s) && (s.stage.QaActive? || s.stage.QaActiveReopened?) && StartsClose(s, r).None?
    ensures NonePartial(QaT(cfg, s, r, e))
  {
    var s0 := s.(stage := QaActive);
    if r.supplement.Appended? {
      var t := RescanStartT(s0);
      ScanNone(cfg, t[1], e);
      NoneCat(t, ScanT(cfg, t[1], e));
      NoneCat([s0], RescanT(cfg, s0, e));
    } else if r.supplement.NotMaterial? {
      var (t, act) := QaReplyT(cfg, s0, r.intent);
      QaReplyRow(cfg, s0, r.intent);
      EmitNone(End(s0, t), e);
      NoneCat([s0], t);
      NoneCat([s0] + t, ActT(cfg, End(s0, t), act, e));
    }
  }

  // ── the close ───────────────────────────────────────────

  lemma CloseNone(s: Session, e: Env)
    requires !Partial(s)
    ensures NonePartial(CloseT(s, e))
  {
  }

  lemma AfterGateNone(cfg: Config, s: Session, forced: bool, e: Env)
    requires !Partial(s)
    requires s.verdict == Some(Fail) && !forced ==> OpenBlockers(s.findings) != [] && s.failCount < cfg.maxFails
    ensures NonePartial(AfterGateT(cfg, s, forced, e))
  {
    if s.verdict == Some(Fail) && !forced {
      var t := ReopenT(s, OpenBlockers(s.findings));
      EmitNone(End(s, t), e);
      NoneCat(t, EmitT(End(s, t), e));
    } else {
      CloseNone(s, e);
    }
  }

  lemma GatedNone(cfg: Config, s: Session, forced: bool, e: Env)
    requires VerdictRemembersFailures(s) && s.failCount < Cap(cfg) && !PartialReason(cfg, s, forced, e.gate)
    ensures NonePartial(GatedT(cfg, s, forced, e))
  {
    var t := GateT(s, forced, e);
    assert NonePartial(t);
    if !GateAborts(e.gate) {
      AfterGateNone(cfg, End(s, t), forced, e);
      NoneCat(t, AfterGateT(cfg, End(s, t), forced, e));
    }
  }

  lemma ChainNone(cfg: Config, s: Session, forced: bool, e: Env)
    requires VerdictRemembersFailures(s) && s.failCount < Cap(cfg)
    requires MergeAborts(s, e) || !PartialReason(cfg, s, forced, e.gate)
    ensures NonePartial(ChainT(cfg, s, forced, e))
  {
    var t := MergeT(s, e);
    assert NonePartial(t);
    if !MergeAborts(s, e) {
      GatedNone(cfg, End(s, t), forced, e);
      NoneCat(t, GatedT(cfg, End(s, t), forced, e));
    }
  }

  // ── every write of every reply ──────────────────────────

  /** The session in which a reply starts the close chain. */
  function CloseFrom(s: Session, r: Reply): Session {
    if s.stage.QaActive? || s.stage.QaActiveReopened? then s.(stage := QaActive)
    else if s.stage.AwaitingCloseConfirmation? && !r.intent.ForceClose? then s.(stage := Merging)
    else s
  }

  /** A reply that starts a close writes at most the stage before the chain. */
  lemma CloseReply(cfg: Config, s: Session, r: Reply, e: Env)
    requires StartsClose(s, r).Some?
    ensures var a := CloseFrom(s, r);
            var u := ChainT(cfg, a, StartsClose(s, r).value, e);
            && a == s.(stage := a.stage)
            && (ReplyT(cfg, s, r, e) == [a] + u || (ReplyT(cfg, s, r, e) == u && a == s))
  {
    hide ChainT;
    var a := s.(stage := QaActive);
    assert [a] + [] == [a];
  }

  lemma CloseReplyNone(cfg: Config, s: Session, r: Reply, e: Env)
    requires GateInv(cfg, s) && s.status.Active? && StartsClose(s, r).Some? && !PartialCause(cfg, s, r, e)
    ensures NonePartial(ReplyT(cfg, s, r, e))
  {
    CloseReply(cfg, s, r, e);
    var a, forced := CloseFrom(s, r), StartsClose(s, r).value;
    StartRemembers(cfg, s, r);
    SameReason(cfg, s, a, forced, e.gate);
    ChainNone(cfg, a, forced, e);
    NoneCat([a], ChainT(cfg, a, forced, e));
  }

  lemma StartRemembers(cfg: Config, s: Session, r: Reply)
    requires GateInv(cfg, s) && s.status.Active? && StartsClose(s, r).Some?
    ensures VerdictRemembersFailures(s) && s.failCount < Cap(cfg)
  {
  }

  lemma SameReason(cfg: Config, s: Session, a: Session, forced: bool, g: GateAnswer)
    requires a == s.(stage := a.stage)
    ensures PartialReason(cfg, s, forced, g) <==> PartialReason(cfg, a, forced, g)
  {
  }

  lemma OtherReplyNone(cfg: Config, s: Session, r: Reply, e: Env)
    requires GateInv(cfg, s) && s.status.Active? && StartsClose(s, r).None? && !Partial(s)
    ensures NonePartial(ReplyT(cfg, s, r, e))
  {
    match s.stage
    case AwaitingMaterialConfirm =>
    case SubjectConfirmation => SubjectNone(cfg, s, r, e);
    case QaActive => QaNone(cfg, s, r, e);
    case QaActiveReopened => QaNone(cfg, s, r, e);
    case AwaitingCloseConfirmation => PullNone(cfg, s, e);
    case Intake =>
    case _ => BusyNone(cfg, s, e);
  }

  lemma ChainGives(cfg: Config, s: Session, forced: bool, e: Env)
    requires VerdictRemembersFailures(s) && s.failCount < Cap(cfg)
    requires !MergeAborts(s, e) && PartialReason(cfg, s, forced, e.gate)
    ensures ChainT(cfg, s, forced, e) != [] && Partial(End(s, ChainT(cfg, s, forced, e)))
  {
    var t := MergeT(s, e);
    var s1 := End(s, t);
    assert t != [] && s1.failCount == s.failCount && s1.findings == s.findings && s1.verdict == s.verdict;
    GatedVerdict(cfg, s1, forced, e);
    EndCat(s, t, GatedT(cfg, s1, forced, e));
  }

  lemma CauseGives(cfg: Config, s: Session, r: Reply, e: Env)
    requires GateInv(cfg, s) && s.status.Active? && PartialCause(cfg, s, r, e)
    ensures ReplyT(cfg, s, r, e) != [] && Partial(End(s, ReplyT(cfg, s, r, e)))
  {
    CloseReply(cfg, s, r, e);
    var a, forced := CloseFrom(s, r), StartsClose(s, r).value;
    StartRemembers(cfg, s, r);
    SameReason(cfg, s, a, forced, e.gate);
    ChainGives(cfg, a, forced, e);
    EndCat(s, [a], ChainT(cfg, a, forced, e));
  }

  /** A reply makes some write with FORCED_PARTIAL, to a session that did not have it, exactly when
      it starts a close that gets through merge and gate and was forced, or failed with no open
      BLOCKER or for the last time. Then the reply, if it is not cut short, ends with that verdict. */
  lemma PartialIff(cfg: Config, s: Session, r: Reply, e: Env)
    requires GateInv(cfg, s) && s.status.Active? && !Partial(s)
    ensures PartialCause(cfg, s, r, e) <==> !NonePartial(ReplyT(cfg, s, r, e))
    ensures PartialCause(cfg, s, r, e) ==> Partial(End(s, ReplyT(cfg, s, r, e)))
  {
    var t := ReplyT(cfg, s, r, e);
    if PartialCause(cfg, s, r, e) {
      CauseGives(cfg, s, r, e);
      assert Partial(t[|t| - 1]);
    } else if StartsClose(s, r).Some? {
      CloseReplyNone(cfg, s, r, e);
    } else {
      OtherReplyNone(cfg, s, r, e);
    }
  }

  // ── runs ────────────────────────────────────────────────

  /** Some message of the run meets its session with such a cause. */
  ghost predicate Caused(cfg: Config, s: Session, es: seq<Event>)
    decreases |es|
  {
    es != [] &&
    ((s.status.Active? && PartialCause(cfg, s, es[0].reply, es[0].env)) || Caused(cfg, Step(cfg, s, es[0]), es[1..]))
  }

  lemma StepPartial(cfg: Config, s: Session, e: Event)
    requires GateInv(cfg, s) && !Partial(s) && Partial(Step(cfg, s, e))
    ensures s.status.Active? && PartialCause(cfg, s, e.reply, e.env)
  {
    var t := StepT(cfg, s, e);
    assert t[|t| - 1] == ReplyT(cfg, s, e.reply, e.env)[|t| - 1];
    PartialIff(cfg, s, e.reply, e.env);
  }

  /** Over all runs, cuts included: a session is FORCED_PARTIAL only if some message was such a cause. */
  lemma {:induction false} PartialRuns(cfg: Config, s: Session, es: seq<Event>)
    requires GateInv(cfg, s) && !Partial(s) && Partial(Exec(cfg, s, es))
    ensures Caused(cfg, s, es)
    decreases |es|
  {
    hide GateInv, PartialCause, Step;
    if es != [] {
      var x := Step(cfg, s, es[0]);
      StepGate(cfg, s, es[0]);
      if Partial(x) {
        StepPartial(cfg, s, es[0]);
      } else {
        PartialRuns(cfg, x, es[1..]);
      }
    }
  }

  /** The verdict stays. */
  lemma PartialStays(cfg: Config, s: Session, e: Event)
    requires GateInv(cfg, s) && Partial(s)
    ensures Partial(Step(cfg, s, e))
  {
    if s.status.Active? {
      if s.stage.Closing? {
        ClosingStays(cfg, s, e);
      } else {
        assert s.stage.FinalGating? && StepT(cfg, s, e) == [];
      }
    }
  }

  lemma {:induction false} PartialForever(cfg: Config, s: Session, es: seq<Event>)
    requires GateInv(cfg, s) && Partial(s)
    ensures Partial(Exec(cfg, s, es))
    decreases |es|
  {
    hide GateInv, Step;
    if es != [] {
      StepGate(cfg, s, es[0]);
      PartialStays(cfg, s, es[0]);
      PartialForever(cfg, Step(cfg, s, es[0]), es[1..]);
    }
  }

  /** In runs in which no handler is cut short: exactly when some message was such a cause. */
  lemma {:induction false} PartialRunIff(cfg: Config, s: Session, es: seq<Event>)
    requires GateInv(cfg, s) && !Partial(s) && Uncut(es)
    ensures Partial(Exec(cfg, s, es)) <==> Caused(cfg, s, es)
    decreases |es|
  {
    hide GateInv, PartialCause, Step;
    if es != [] {
      var x := Step(cfg, s, es[0]);
      StepGate(cfg, s, es[0]);
      WholePartial(cfg, s, es[0]);
      if Partial(x) {
        PartialForever(cfg, x, es[1..]);
      } else {
        assert Uncut(es[1..]);
        PartialRunIff(cfg, x, es[1..]);
      }
    }
  }

  lemma WholePartial(cfg: Config, s: Session, e: Event)
    requires GateInv(cfg, s) && !Partial(s) && e.cut.None?
    ensures Partial(Step(cfg, s, e)) <==> s.status.Active? && PartialCause(cfg, s, e.reply, e.env)
  {
    hide ReplyT, PartialCause;
    if s.status.Active? {
      PartialIff(cfg, s, e.reply, e.env);
    }
    if Partial(Step(cfg, s, e)) {
      StepPartial(cfg, s, e);
    }
  }

  // ── a forced close that is cut short ────────────────────

  const FORCE := QUIET.(intent := ForceClose)

  /** Merge and gate answer. */
  predicate Answers(e: Env) { e.merge.Fine? && e.gate.GateSays? }

  /** The first writes of a forced close: the merge, the gate, and then the verdict, which stays. */
  lemma ForcedWrites(cfg: Config, s: Session, e: Env, k: nat)
    requires s.status.Active? && s.material && Answers(e) && k < |ChainT(cfg, s, true, e)|
    ensures var x := ChainT(cfg, s, true, e)[k];
            var a := Log(s, MergeCall);
            var b := a.(stage := FinalGating);
            && (k == 0 ==> x == a)
            && (k == 1 ==> x == b)
            && (k == 2 ==> x == Log(b, GateCall))
            && (k >= 3 ==> Partial(x) && (x.status.Active? ==> x.stage.Closing?))
    ensures |ChainT(cfg, s, true, e)| >= 4
  {
    var a := Log(s, MergeCall);
    var b := a.(stage := FinalGating);
    var c := Log(b, GateCall);
    var d := c.(verdict := Some(ForcedPartial), stage := Closing);
    assert GateT(b, true, e) == [c, d];
    assert AfterGateT(cfg, d, true, e) == CloseT(d, e);
    assert ChainT(cfg, s, true, e) == [a, b] + ([c, d] + CloseT(d, e));
    ClosePartial(d, e);
    if k >= 4 {
      assert ChainT(cfg, s, true, e)[k] == CloseT(d, e)[k - 4];
    }
  }

  lemma ClosePartial(s: Session, e: Env)
    requires Partial(s) && s.status.Active?
    ensures forall i :: 0 <= i < |CloseT(s, e)| ==>
              Partial(CloseT(s, e)[i]) && (CloseT(s, e)[i].status.Active? ==> CloseT(s, e)[i].stage.Closing?)
  {
  }

  lemma ClosingStays(cfg: Config, s: Session, e: Event)
    requires Partial(s) && (s.status.Active? ==> s.stage.Closing?)
    ensures Partial(Step(cfg, s, e))
  {
    var t := StepT(cfg, s, e);
    if t != [] {
      assert t[|t| - 1] == DeliverT(s, e.env)[|t| - 1];
    }
  }

  lemma GatingNot(cfg: Config, s: Session, e: Env)
    requires s.stage.FinalGating? && s.status.Active? && !Partial(s)
    ensures !Partial(Step(cfg, s, Event(FORCE, e, None)))
  {
  }

  /** What is left of a forced close that is cut after k writes. */
  lemma CutForced(cfg: Config, s: Session, e: Env, k: nat)
    requires s.status.Active? && s.material && Answers(e)
    ensures var t := Kept(ChainT(cfg, s, true, e), Some(k));
            var x := End(s, t);
            && (k <= 1 ==> x == s || x == Log(s, MergeCall))
            && (k == 2 || k == 3 ==> x.stage.FinalGating? && x.status.Active? && x.verdict == s.verdict)
            && (k >= 4 ==> Partial(x) && (x.status.Active? ==> x.stage.Closing?))
  {
    var u := ChainT(cfg, s, true, e);
    var t := Kept(u, Some(k));
    ForcedWrites(cfg, s, e, 0);
    if t != [] {
      ForcedWrites(cfg, s, e, |t| - 1);
      assert t[|t| - 1] == u[|t| - 1];
    }
  }

  lemma ForcedWhole(cfg: Config, s: Session, e: Env)
    requires s.status.Active? && s.material && Answers(e)
    ensures Partial(End(s, ChainT(cfg, s, true, e)))
  {
    var n := |ChainT(cfg, s, true, e)|;
    ForcedWrites(cfg, s, e, 0);
    ForcedWrites(cfg, s, e, n - 1);
  }

  /** At the close prompt: a forced close that is cut after k writes, and then sent again, ends
      FORCED_PARTIAL exactly when it was not cut after its second or third write: between the end
      of the merge and the verdict. */
  lemma ForcedAtPromptIff(cfg: Config, s: Session, e: Env, again: Env, k: nat)
    requires GateInv(cfg, s) && s.status.Active? && s.stage.AwaitingCloseConfirmation?
    requires Answers(e) && Answers(again)
    ensures var x := Step(cfg, s, Event(FORCE, e, Some(k)));
            Partial(Step(cfg, x, Event(FORCE, again, None))) <==> k != 2 && k != 3
  {
    var x := Step(cfg, s, Event(FORCE, e, Some(k)));
    CutForced(cfg, s, e, k);
    PromptForced(cfg, s, e, Some(k));
    NotPartialYet(cfg, s);
    if k <= 1 {
      ForcedWhole(cfg, x, again);
      PromptForced(cfg, x, again, None);
    } else if k <= 3 {
      GatingNot(cfg, x, again);
    } else {
      ClosingStays(cfg, x, Event(FORCE, again, None));
    }
  }

  lemma PromptForced(cfg: Config, s: Session, e: Env, cut: Option<nat>)
    requires s.status.Active? && s.stage.AwaitingCloseConfirmation?
    ensures Step(cfg, s, Event(FORCE, e, cut)) == End(s, Kept(ChainT(cfg, s, true, e), cut))
    ensures Kept(ChainT(cfg, s, true, e), None) == ChainT(cfg, s, true, e)
  {
    hide ChainT;
  }

  lemma NotPartialYet(cfg: Config, s: Session)
    requires GateInv(cfg, s) && s.status.Active? && PreGate(s.stage)
    ensures !Partial(s) && (s.material || s.stage.Intake?)
  {
  }

  /** In Q&A one write comes first: there the two cuts are after the third and the fourth write. */
  lemma ForcedInQaIff(cfg: Config, s: Session, e: Env, again: Env, k: nat)
    requires GateInv(cfg, s) && s.status.Active? && (s.stage.QaActive? || s.stage.QaActiveReopened?)
    requires Answers(e) && Answers(again)
    ensures var x := Step(cfg, s, Event(FORCE, e, Some(k)));
            Partial(Step(cfg, x, Event(FORCE, again, None))) <==> k != 3 && k != 4
  {
    var a := s.(stage := QaActive);
    var x := Step(cfg, s, Event(FORCE, e, Some(k)));
    QaForce(cfg, s, e);
    if k == 0 {
      ForcedAgain(cfg, s, again);
    } else {
      CutAfterFirst(cfg, s, e, k);
      CutForced(cfg, a, e, k - 1);
      NotPartialYet(cfg, s);
      if k <= 2 {
        ForcedAgain(cfg, x, again);
      } else if k <= 4 {
        GatingNot(cfg, x, again);
      } else {
        ClosingStays(cfg, x, Event(FORCE, again, None));
      }
    }
  }

  lemma QaForce(cfg: Config, s: Session, e: Env)
    requires s.status.Active? && (s.stage.QaActive? || s.stage.QaActiveReopened?)
    ensures ReplyT(cfg, s, FORCE, e) == [s.(stage := QaActive)] + ChainT(cfg, s.(stage := QaActive), true, e)
  {
    hide ChainT;
    assert [s.(stage := QaActive)] + [] == [s.(stage := QaActive)];
  }

  lemma CutAfterFirst(cfg: Config, s: Session, e: Env, k: nat)
    requires s.status.Active? && (s.stage.QaActive? || s.stage.QaActiveReopened?) && k > 0
    ensures var a := s.(stage := QaActive);
            Step(cfg, s, Event(FORCE, e, Some(k))) == End(a, Kept(ChainT(cfg, a, true, e), Some(k - 1)))
  {
    hide ChainT;
    var a := s.(stage := QaActive);
    var u := ChainT(cfg, a, true, e);
    QaForce(cfg, s, e);
    assert Kept([a] + u, Some(k)) == [a] + Kept(u, Some(k - 1));
  }

  lemma ForcedAgain(cfg: Config, s: Session, e: Env)
    requires s.status.Active? && s.material && (s.stage.QaActive? || s.stage.QaActiveReopened?) && Answers(e)
    ensures Partial(Step(cfg, s, Event(FORCE, e, None)))
  {
    var a := s.(stage := QaActive);
    QaForce(cfg, s, e);
    ForcedWhole(cfg, a, e);
    EndCat(s, [a], ChainT(cfg, a, true, e));
  }

  // ── what becomes of one that is forgotten ───────────────

  /** Past the merge of a close, with no sign that it was forced. */
  predicate Unforced(s: Session) {
    && (s.stage.FinalGating? || s.stage.Closing? || (s.stage.Closed? && s.status.Closed?))
    && !Partial(s)
  }

  lemma BusyUnforced(cfg: Config, s: Session, e: Env, k: nat)
    requires Unforced(s) && s.status.Active? && k < |BusyT(cfg, s, e)|
    ensures Unforced(BusyT(cfg, s, e)[k])
  {
  }

  lemma StaysUnforced(cfg: Config, s: Session, e: Event)
    requires Unforced(s)
    ensures Unforced(Step(cfg, s, e))
  {
    var t := StepT(cfg, s, e);
    if t != [] {
      var u := BusyT(cfg, s, e.env);
      assert t == Kept(u, e.cut);
      BusyUnforced(cfg, s, e.env, |t| - 1);
      assert t[|t| - 1] == u[|t| - 1];
    }
  }

  /** It never becomes FORCED_PARTIAL, in no run. */
  lemma {:induction false} NeverForced(cfg: Config, s: Session, es: seq<Event>)
    requires Unforced(s)
    ensures Unforced(Exec(cfg, s, es))
    decreases |es|
  {
    if es != [] {
      StaysUnforced(cfg, s, es[0]);
      NeverForced(cfg, Step(cfg, s, es[0]), es[1..]);
    }
  }

  /** So a forced close that is cut after the merge is forgotten for good: no run makes it
      FORCED_PARTIAL, and if the gate now answers FAIL the session is out of reach. */
  lemma ForcedCloseForgotten(cfg: Config, s: Session, e: Env, again: Env, es: seq<Event>)
    requires GateInv(cfg, s) && s.status.Active? && s.stage.AwaitingCloseConfirmation? && GateCall !in s.calls
    requires Answers(e) && Answers(again)
    ensures var x := Step(cfg, s, Event(FORCE, e, Some(2)));
            && !Partial(Exec(cfg, x, es))
            && (GateVerdict(false, again.gate).Fail? ==> Wedged(Step(cfg, x, Event(FORCE, again, None))))
  {
    var x := Log(s, MergeCall).(stage := FinalGating);
    CutAtTwo(cfg, s, e);
    NotPartialYet(cfg, s);
    NeverForced(cfg, x, es);
    if GateVerdict(false, again.gate).Fail? {
      GateAgain(cfg, x, again);
    }
  }

  lemma CutAtTwo(cfg: Config, s: Session, e: Env)
    requires s.status.Active? && s.material && s.stage.AwaitingCloseConfirmation? && Answers(e)
    ensures Step(cfg, s, Event(FORCE, e, Some(2))) == Log(s, MergeCall).(stage := FinalGating)
  {
    ForcedWrites(cfg, s, e, 1);
    assert StepT(cfg, s, Event(FORCE, e, Some(2))) == ChainT(cfg, s, true, e)[..2];
  }

  lemma GateAgain(cfg: Config, x: Session, e: Env)
    requires x.status.Active? && x.stage.FinalGating? && GateCall !in x.calls
    requires e.gate.GateSays? && GateVerdict(false, e.gate).Fail?
    ensures Wedged(Step(cfg, x, Event(FORCE, e, None)))
  {
  }
}
