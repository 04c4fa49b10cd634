/** Sessions out of reach: which they are, and exactly how a session becomes one. */
module Wedges {
  import opened Models
  import opened Protocol
  import opened GateSafety
  import opened Verdicts

  /** In a busy stage whose call was logged before, "still busy" is the only answer left; at INTAKE
      without material every attempt to merge raises. */
  predicate Wedged(s: Session) {
    && s.status.Active?
    && (if BusyKey(s.stage).Some? then BusyKey(s.stage).value in s.calls else s.stage.Intake? && !s.material)
  }

  lemma {:induction false} WedgedForever(cfg: Config, s: Session, es: seq<Event>)
    requires Wedged(s)
    ensures Exec(cfg, s, es) == s
    decreases |es|
  {
    if es != [] {
      WedgedForever(cfg, s, es[1..]);
    }
  }

  const QUIET := Reply(OtherReply, false, false, NotMaterial, Pass)
  const DOWN := Env(Down, NoAnswer, Down, Down, GateDown, Down, false)

  /** An event that moves the session on, for every session that is not wedged. */
  function Mover(s: Session): Event {
    match s.stage
    case AwaitingMaterialConfirm => Event(QUIET.(material := CancelReview), DOWN, None)
    case SubjectConfirmation => Event(QUIET.(picksSubject := true), DOWN, None)
    case QaActive => Event(QUIET.(intent := Done), DOWN, None)
    case QaActiveReopened => Event(QUIET.(intent := Done), DOWN, None)
    case AwaitingCloseConfirmation => Event(QUIET.(intent := Accept), DOWN, Some(1))
    case Intake => Event(QUIET.(intent := Accept), DOWN, Some(1))
    case _ => Event(QUIET, DOWN, None)
  }

  lemma ScanDown(cfg: Config, s: Session)
    requires s.stage.Scanning?
    ensures End(s, ScanT(cfg, s, DOWN)).status.Failed?
  {
  }

  lemma MoverMoves(cfg: Config, s: Session)
    requires GateInv(cfg, s) && s.status.Active? && !Wedged(s)
    ensures Step(cfg, s, Mover(s)) != s
  {
    match s.stage
    case Scanning => ScanDown(cfg, s);
    case _ =>
  }

  /** An ACTIVE session is out of reach of every message, for ever, exactly when it is wedged. */
  lemma StuckIffWedged(cfg: Config, s: Session)
    requires GateInv(cfg, s) && s.status.Active?
    ensures Wedged(s) <==> forall e :: Step(cfg, s, e) == s
    ensures Wedged(s) ==> forall es :: Exec(cfg, s, es) == s
  {
    if Wedged(s) {
      forall es ensures Exec(cfg, s, es) == s {
        WedgedForever(cfg, s, es);
      }
    } else {
      MoverMoves(cfg, s);
    }
  }

  // ── how a session gets there ────────────────────────────

  /** The scan raises, and this or an earlier one has logged its first call. */
  predicate ScanWedges(s: Session, e: Env) {
    e.scan.ScanStores? || (e.scan.ScanRaises? && (e.scan.calls > 0 || PillarCall in s.calls))
  }

  /** The close raises in a stage whose call is logged by then, or is not delivered in full. */
  predicate ChainWedges(cfg: Config, s: Session, forced: bool, e: Env) {
    if MergeAborts(s, e) then s.stage.Merging? && (e.merge.Breaks? || MergeCall in s.calls)
    else && e.merge.Fine?
         && (if GateAborts(e.gate) then e.gate.GateBreaks? || GateCall in s.calls
             else e.gate.GateSays? && !Reopens(cfg, s, forced, e) &&
                  (e.summary.Breaks? || (e.summary.Fine? && !e.delivered)))
  }

  /** A restarted stage raises after its call; or it ends in a stage whose call was logged before; or
      a restarted gate answers FAIL, after which nothing reopens Q&A; or delivery is incomplete. */
  predicate BusyWedges(s: Session, e: Env) {
    match s.stage
    case Scanning => ScanWedges(s, e)
    case Merging => e.merge.Breaks? || (e.merge.Fine? && GateCall in s.calls)
    case FinalGating => e.gate.GateBreaks? || (e.gate.GateSays? && GateVerdict(false, e.gate).Fail?)
    case Closing => e.summary.Breaks? || (e.summary.Fine? && !e.delivered)
    case _ => false
  }

  predicate WedgeCause(cfg: Config, s: Session, r: Reply, e: Env) {
    match s.stage
    case SubjectConfirmation => !r.newMaterial && r.picksSubject && ScanWedges(s, e)
    case QaActive => QaWedges(cfg, s, r, e)
    case QaActiveReopened => QaWedges(cfg, s, r, e)
    case AwaitingCloseConfirmation =>
      if r.intent.ForceClose? then ChainWedges(cfg, s, true, e)
      else (r.intent.Accept? || r.intent.Done? || r.intent.PickA?) && ChainWedges(cfg, s.(stage := Merging), false, e)
    case Intake => (r.intent.Accept? || r.intent.Done?) && ChainWedges(cfg, s, false, e)
    case _ => BusyWedges(s, e)
  }

  predicate QaWedges(cfg: Config, s: Session, r: Reply, e: Env) {
    if r.supplement.Appended? then ScanWedges(s, e)
    else r.supplement.NotMaterial? && r.intent.ForceClose? && ChainWedges(cfg, s.(stage := QaActive), true, e)
  }

  // ── handler by handler ──────────────────────────────────

  lemma StoredEnd(s: Session, fs: seq<Finding>)
    ensures var x := End(s, Appends(s, fs)); x.stage == s.stage && x.status == s.status && x.calls == s.calls
  {
  }

  lemma ScanRunWedged(cfg: Config, s: Session, e: Env)
    requires s.status.Active? && s.stage.Scanning?
    ensures var x := End(s, ScanRunT(cfg, s, e));
            if e.scan.Scanned? then x.stage.QaActive? else Wedged(x) <==> ScanWedges(s, e)
  {
    var a := Log(s, PillarCall);
    var b := Log(a, ResponderCall);
    if e.scan.Scanned? {
      EndCat(s, [a, b], FoundT(cfg, b, e.scan.found));
    } else if e.scan.ScanStores? {
      EndCat(s, [a, b], Appends(b, Opened(e.scan.stored)));
      StoredEnd(b, Opened(e.scan.stored));
    }
  }

  lemma EmitStage(s: Session, e: Env)
    ensures var x := End(s, EmitT(s, e)); x.status.Active? ==> x.stage == s.stage
  {
  }

  lemma ScanWedged(cfg: Config, s: Session, e: Env)
    requires s.status.Active? && s.stage.Scanning?
    ensures Wedged(End(s, ScanT(cfg, s, e))) <==> ScanWedges(s, e)
  {
    var t := ScanRunT(cfg, s, e);
    assert s == s.(stage := Scanning);
    ScanRunWedged(cfg, s, e);
    EndCat(s, [s], t);
    if e.scan.Scanned? {
      EndCat(s, [s] + t, EmitT(End(s, t), e));
      EmitStage(End(s, t), e);
    } else {
      assert [s] + t + [] == [s] + t;
    }
  }

  lemma GatedWedged(cfg: Config, s: Session, forced: bool, e: Env)
    requires s.status.Active? && s.stage.FinalGating? && SummaryCall !in s.calls
    ensures var (v, fails) := Decisive(s, forced, e.gate);
            var re := v == Some(Fail) && !forced && OpenBlockers(s.findings) != [] && fails < cfg.maxFails;
            Wedged(End(s, GatedT(cfg, s, forced, e))) <==>
            if GateAborts(e.gate) then e.gate.GateBreaks? || GateCall in s.calls
            else e.gate.GateSays? && !re && (e.summary.Breaks? || (e.summary.Fine? && !e.delivered))
  {
    hide GatedT, OpenBlockers, Decisive;
    GatedOutcome(cfg, s, forced, e);
  }

  /** The end of the chain in terms of its second part. */
  lemma ChainSplit(cfg: Config, s: Session, forced: bool, e: Env)
    requires s.status.Active?
    ensures var x := End(s, ChainT(cfg, s, forced, e));
            var y := Log(s, MergeCall).(stage := FinalGating);
            if MergeAborts(s, e) then x == (if s.material && e.merge.Breaks? then Log(s, MergeCall) else s)
            else if e.merge.Fine? then x == End(y, GatedT(cfg, y, forced, e))
            else x == End(Failing(s, Merging), GatedT(cfg, Failing(s, Merging), forced, e))
  {
    hide GatedT;
    var t := MergeT(s, e);
    if MergeAborts(s, e) {
      assert t + [] == t;
    } else {
      EndCat(s, t, GatedT(cfg, End(s, t), forced, e));
    }
  }

  lemma FailedStays(cfg: Config, s: Session, forced: bool, e: Env)
    requires s.status.Failed?
    ensures !End(s, GatedT(cfg, s, forced, e)).status.Active?
  {
    GatedOutcome(cfg, s, forced, e);
  }

  lemma ChainWedged(cfg: Config, s: Session, forced: bool, e: Env)
    requires s.status.Active? && SummaryCall !in s.calls && s.material
    requires !s.stage.Merging? ==> !Wedged(s) && !BusyKey(s.stage).Some?
    ensures Wedged(End(s, ChainT(cfg, s, forced, e))) <==> ChainWedges(cfg, s, forced, e)
  {
    hide GatedT, ChainT, OpenBlockers;
    ChainSplit(cfg, s, forced, e);
    if !MergeAborts(s, e) {
      if e.merge.Fine? {
        GatedWedged(cfg, Log(s, MergeCall).(stage := FinalGating), forced, e);
      } else {
        FailedStays(cfg, Failing(s, Merging), forced, e);
      }
    }
  }

  lemma ChainWedgedAtMerge(cfg: Config, s: Session, e: Env)
    requires GateInv(cfg, s) && s.status.Active? && s.stage.AwaitingCloseConfirmation?
    ensures Wedged(End(s, [s.(stage := Merging)] + ChainT(cfg, s.(stage := Merging), false, e))) <==>
            ChainWedges(cfg, s.(stage := Merging), false, e)
  {
    hide ChainT;
    var a := s.(stage := Merging);
    EndCat(s, [a], ChainT(cfg, a, false, e));
    ChainWedged(cfg, a, false, e);
  }

  lemma BusyWedged(cfg: Config, s: Session, e: Env)
    requires GateInv(cfg, s) && s.status.Active? && BusyKey(s.stage).Some? && !Wedged(s)
    ensures Wedged(End(s, BusyT(cfg, s, e))) <==> BusyWedges(s, e)
  {
    if s.stage.Scanning? {
      ScanWedged(cfg, s, e);
    }
  }

  lemma QaWedged(cfg: Config, s: Session, r: Reply, e: Env)
    requires GateInv(cfg, s) && s.status.Active? && (s.stage.QaActive? || s.stage.QaActiveReopened?)
    ensures Wedged(End(s, QaT(cfg, s, r, e))) <==> QaWedges(cfg, s, r, e)
  {
    var s0 := s.(stage := QaActive);
    FreeToClose(cfg, s);
    if r.supplement.Appended? {
      var t := RescanStartT(s0);
      ScanWedged(cfg, t[1], e);
      EndCat(s0, t, ScanT(cfg, t[1], e));
      EndCat(s, [s0], RescanT(cfg, s0, e));
    } else if r.supplement.NotMaterial? {
      var (t, act) := QaReplyT(cfg, s0, r.intent);
      QaReplyRow(cfg, s0, r.intent);
      QaSplit(cfg, s, r, e);
      if act.GoForceClose? {
        ChainWedged(cfg, s0, true, e);
      } else {
        ActStage(cfg, End(s0, t), act, e);
      }
    }
  }

  /** A reply to a question, up to the action it leads to. */
  lemma QaSplit(cfg: Config, s: Session, r: Reply, e: Env)
    requires (s.stage.QaActive? || s.stage.QaActiveReopened?) && r.supplement.NotMaterial?
    ensures var s0 := s.(stage := QaActive);
            var (t, act) := QaReplyT(cfg, s0, r.intent);
            && End(s, QaT(cfg, s, r, e)) == End(End(s0, t), ActT(cfg, End(s0, t), act, e))
            && End(s0, t).stage.QaActive? && End(s0, t).status == s.status
            && (act.GoForceClose? <==> r.intent.ForceClose?)
            && (act.GoForceClose? ==> End(s0, t) == s0)
  {
    var s0 := s.(stage := QaActive);
    var (t, act) := QaReplyT(cfg, s0, r.intent);
    QaEnd(cfg, s, r, e);
    QaReplyRow(cfg, s0, r.intent);
  }

  lemma FreeToClose(cfg: Config, s: Session)
    requires GateInv(cfg, s) && s.status.Active? && PreGate(s.stage)
    ensures SummaryCall !in s.calls && (s.material || s.stage.Intake?)
  {
  }

  lemma ActStage(cfg: Config, s: Session, act: Action, e: Env)
    requires s.stage.QaActive? && !act.GoForceClose?
    ensures !Wedged(End(s, ActT(cfg, s, act, e)))
  {
    EmitStage(s, e);
  }

  lemma ConfirmWedged(cfg: Config, s: Session, r: Reply, e: Env)
    requires GateInv(cfg, s) && s.status.Active? && s.stage.AwaitingCloseConfirmation?
    ensures Wedged(End(s, ConfirmT(cfg, s, r.intent, e))) <==> WedgeCause(cfg, s, r, e)
  {
    hide ChainT, ChainWedges;
    var i := r.intent;
    if i.Accept? || i.Done? || i.PickA? {
      ChainWedgedAtMerge(cfg, s, e);
    } else if i.ForceClose? {
      ChainWedged(cfg, s, true, e);
    } else if i.More? || i.PickB? {
      PullStage(cfg, s, e);
    }
  }

  lemma PullStage(cfg: Config, s: Session, e: Env)
    requires s.stage.AwaitingCloseConfirmation?
    ensures !Wedged(End(s, PullAtCloseT(cfg, s, e)))
  {
    if Take(s.cursor.deferred, cfg.topN) != [] {
      var t := PulledT(cfg, s);
      EndCat(s, t, EmitT(End(s, t), e));
      EmitStage(End(s, t), e);
    }
  }

  /** Exactly when does a message that is handled to its end, or to where it raises, put a session
      out of reach. */
  lemma WedgeIff(cfg: Config, s: Session, r: Reply, e: Env)
    requires GateInv(cfg, s) && s.status.Active? && !Wedged(s)
    ensures Wedged(End(s, ReplyT(cfg, s, r, e))) <==> WedgeCause(cfg, s, r, e)
  {
    hide ChainT, ChainWedges, ScanT, ScanWedges, QaT, QaWedges, BusyWedges, ConfirmT;
    match s.stage
    case AwaitingMaterialConfirm => NeverBusy(s);
    case SubjectConfirmation => SubjectWedged(cfg, s, r, e);
    case QaActive => QaWedged(cfg, s, r, e);
    case QaActiveReopened => QaWedged(cfg, s, r, e);
    case AwaitingCloseConfirmation => ConfirmWedged(cfg, s, r, e);
    case Intake => ChainWedged(cfg, s, false, e);
    case _ => BusyWedged(cfg, s, e);
  }

  lemma NeverBusy(s: Session)
    requires s.stage.AwaitingMaterialConfirm?
    ensures forall e :: !BusyWedges(s, e)
  {
  }

  lemma SubjectWedged(cfg: Config, s: Session, r: Reply, e: Env)
    requires s.status.Active? && s.stage.SubjectConfirmation?
    ensures Wedged(End(s, SubjectT(cfg, s, r, e))) <==> !r.newMaterial && r.picksSubject && ScanWedges(s, e)
  {
    if !r.newMaterial && r.picksSubject {
      var a := s.(stage := Scanning);
      ScanWedged(cfg, a, e);
      EndCat(s, [a], ScanT(cfg, a, e));
    }
  }

  // ── where messages leave a session ──────────────────────

  /** Where a close leaves an ACTIVE session in a busy stage: in MERGING or FINAL_GATING where it
      raised, in CLOSING if the summary was not delivered in full. */
  predicate ChainRests(cfg: Config, s: Session, forced: bool, e: Env, st: Stage) {
    if MergeAborts(s, e) then st.Merging? && s.stage.Merging?
    else && e.merge.Fine?
         && (if GateAborts(e.gate) then st.FinalGating?
             else st.Closing? && e.gate.GateSays? && !Reopens(cfg, s, forced, e) && Undelivered(e))
  }

  predicate ScanRests(e: Env, st: Stage) {
    st.Scanning? && (e.scan.ScanRaises? || e.scan.ScanStores?)
  }

  predicate RestCause(cfg: Config, s: Session, r: Reply, e: Env, st: Stage) {
    match s.stage
    case SubjectConfirmation => !r.newMaterial && r.picksSubject && ScanRests(e, st)
    case QaActive => QaRests(cfg, s, r, e, st)
    case QaActiveReopened => QaRests(cfg, s, r, e, st)
    case AwaitingCloseConfirmation =>
      if r.intent.ForceClose? then ChainRests(cfg, s, true, e, st)
      else && (r.intent.Accept? || r.intent.Done? || r.intent.PickA?)
           && ChainRests(cfg, s.(stage := Merging), false, e, st)
    case Intake => (r.intent.Accept? || r.intent.Done?) && ChainRests(cfg, s, false, e, st)
    case _ => false
  }

  predicate QaRests(cfg: Config, s: Session, r: Reply, e: Env, st: Stage) {
    if r.supplement.Appended? then ScanRests(e, st)
    else r.supplement.NotMaterial? && r.intent.ForceClose? && ChainRests(cfg, s.(stage := QaActive), true, e, st)
  }

  predicate RestsAt(x: Session, st: Stage) { x.status.Active? && x.stage == st }

  lemma ScanResting(cfg: Config, s: Session, e: Env, st: Stage)
    requires s.status.Active? && s.stage.Scanning? && BusyKey(st).Some?
    ensures RestsAt(End(s, ScanT(cfg, s, e)), st) <==> ScanRests(e, st)
  {
    var t := ScanRunT(cfg, s, e);
    assert s == s.(stage := Scanning);
    ScanRunResting(cfg, s, e);
    EndCat(s, [s], t);
    if e.scan.Scanned? {
      EndCat(s, [s] + t, EmitT(End(s, t), e));
      EmitStage(End(s, t), e);
    } else {
      assert [s] + t + [] == [s] + t;
    }
  }

  lemma ScanRunResting(cfg: Config, s: Session, e: Env)
    requires s.status.Active? && s.stage.Scanning?
    ensures var x := End(s, ScanRunT(cfg, s, e));
            if e.scan.Scanned? then x.stage.QaActive?
            else x.stage.Scanning? && (x.status.Active? <==> ScanRests(e, Scanning))
  {
    var a := Log(s, PillarCall);
    var b := Log(a, ResponderCall);
    if e.scan.Scanned? {
      EndCat(s, [a, b], FoundT(cfg, b, e.scan.found));
    } else if e.scan.ScanStores? {
      EndCat(s, [a, b], Appends(b, Opened(e.scan.stored)));
      StoredEnd(b, Opened(e.scan.stored));
    }
  }

  lemma ChainResting(cfg: Config, s: Session, forced: bool, e: Env, st: Stage)
    requires s.status.Active? && BusyKey(st).Some? && (s.stage.Merging? || !BusyKey(s.stage).Some?)
    ensures RestsAt(End(s, ChainT(cfg, s, forced, e)), st) <==> ChainRests(cfg, s, forced, e, st)
  {
    hide GatedT, ChainT, OpenBlockers;
    ChainSplit(cfg, s, forced, e);
    if !MergeAborts(s, e) {
      if e.merge.Fine? {
        GatedOutcome(cfg, Log(s, MergeCall).(stage := FinalGating), forced, e);
      } else {
        FailedStays(cfg, Failing(s, Merging), forced, e);
      }
    }
  }

  lemma QaResting(cfg: Config, s: Session, r: Reply, e: Env, st: Stage)
    requires s.status.Active? && (s.stage.QaActive? || s.stage.QaActiveReopened?) && BusyKey(st).Some?
    ensures RestsAt(End(s, QaT(cfg, s, r, e)), st) <==> QaRests(cfg, s, r, e, st)
  {
    hide ChainT, ScanT, ChainRests, ScanRests, GateInv;
    var s0 := s.(stage := QaActive);
    if r.supplement.Appended? {
      var t := RescanStartT(s0);
      ScanResting(cfg, t[1], e, st);
      EndCat(s0, t, ScanT(cfg, t[1], e));
      EndCat(s, [s0], RescanT(cfg, s0, e));
    } else if r.supplement.NotMaterial? {
      var (t, act) := QaReplyT(cfg, s0, r.intent);
      QaSplit(cfg, s, r, e);
      if act.GoForceClose? {
        ChainResting(cfg, s0, true, e, st);
      } else {
        EmitStage(End(s0, t), e);
      }
    }
  }

  lemma ConfirmResting(cfg: Config, s: Session, r: Reply, e: Env, st: Stage)
    requires s.status.Active? && s.stage.AwaitingCloseConfirmation? && BusyKey(st).Some?
    ensures RestsAt(End(s, ConfirmT(cfg, s, r.intent, e)), st) <==> RestCause(cfg, s, r, e, st)
  {
    hide ChainT, ChainRests;
    var i := r.intent;
    if i.Accept? || i.Done? || i.PickA? {
      var a := s.(stage := Merging);
      EndCat(s, [a], ChainT(cfg, a, false, e));
      ChainResting(cfg, a, false, e, st);
    } else if i.ForceClose? {
      ChainResting(cfg, s, true, e, st);
    } else if (i.More? || i.PickB?) && Take(s.cursor.deferred, cfg.topN) != [] {
      var t := PulledT(cfg, s);
      EndCat(s, t, EmitT(End(s, t), e));
      EmitStage(End(s, t), e);
    }
  }

  /** In which busy stage, if any, does a message that is handled to its end, or to where it
      raises, leave a session that was in none. */
  lemma RestsIff(cfg: Config, s: Session, r: Reply, e: Env, st: Stage)
    requires s.status.Active? && !BusyKey(s.stage).Some? && BusyKey(st).Some?
    requires !s.stage.Closed? && !s.stage.IngestFailed? && !s.stage.Cancelled?
    ensures RestsAt(End(s, ReplyT(cfg, s, r, e)), st) <==> RestCause(cfg, s, r, e, st)
  {
    hide ChainT, ChainRests, ScanT, ScanRests, QaT, QaRests, ConfirmT;
    match s.stage
    case AwaitingMaterialConfirm =>
    case SubjectConfirmation => SubjectResting(cfg, s, r, e, st);
    case QaActive => QaResting(cfg, s, r, e, st);
    case QaActiveReopened => QaResting(cfg, s, r, e, st);
    case AwaitingCloseConfirmation => ConfirmResting(cfg, s, r, e, st);
    case Intake => ChainResting(cfg, s, false, e, st);
  }

  lemma SubjectResting(cfg: Config, s: Session, r: Reply, e: Env, st: Stage)
    requires s.status.Active? && s.stage.SubjectConfirmation? && BusyKey(st).Some?
    ensures RestsAt(End(s, SubjectT(cfg, s, r, e)), st) <==> !r.newMaterial && r.picksSubject && ScanRests(e, st)
  {
    if !r.newMaterial && r.picksSubject {
      var a := s.(stage := Scanning);
      ScanResting(cfg, a, e, st);
      EndCat(s, [a], ScanT(cfg, a, e));
    }
  }

  // ── runs ────────────────────────────────────────────────

  ghost predicate Uncut(es: seq<Event>) {
    forall i :: 0 <= i < |es| ==> es[i].cut.None?
  }

  /** Some message of the run meets its session with a cause to be put out of reach. */
  ghost predicate Caused(cfg: Config, s: Session, es: seq<Event>)
    decreases |es|
  {
    es != [] &&
    ((s.status.Active? && WedgeCause(cfg, s, es[0].reply, es[0].env)) || Caused(cfg, Step(cfg, s, es[0]), es[1..]))
  }

  /** In a run no handler of which is cut short, a session ends out of reach exactly when one of the
      messages is such a cause: an answer that raised too late, a restarted gate that failed, or a
      delivery that was incomplete. */
  lemma {:induction false} WedgedRunIff(cfg: Config, s: Session, es: seq<Event>)
    requires GateInv(cfg, s) && !Wedged(s) && Uncut(es)
    ensures Wedged(Exec(cfg, s, es)) <==> Caused(cfg, s, es)
    decreases |es|
  {
    hide GateInv, WedgeCause, Wedged, ReplyT;
    if es != [] {
      var x := Step(cfg, s, es[0]);
      StepGate(cfg, s, es[0]);
      if s.status.Active? {
        WedgeIff(cfg, s, es[0].reply, es[0].env);
      } else {
        NotActiveNotWedged(x);
      }
      if Wedged(x) {
        WedgedForever(cfg, x, es[1..]);
      } else {
        WedgedRunIff(cfg, x, es[1..]);
      }
    }
  }

  lemma NotActiveNotWedged(s: Session)
    ensures !s.status.Active? ==> !Wedged(s)
  {
  }
}
