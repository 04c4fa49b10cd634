/** A session whose findings file can no longer be read back, because a line of it is cut in two: every
    handler raises at its first read. Such a session follows the protocol with certain answers and cuts,
    so all claims over runs hold for it too; here is what becomes of it. */
module Unreadable {
  import opened Models
  import opened Protocol
  import opened GateSafety
  import opened Scan
  import opened Wedges

  /** Merge, question and summary read the findings before they call the model; the gate reads them once
      its answer is logged and parsed. */
  function Blind(e: Env): Env {
    e.(merge := Raises, emit := Raises, summary := Raises, gate := if e.gate.GateSays? then GateBreaks else e.gate)
  }

  /** In Q&A an answer, or a question, to the finding on screen reads them after the first write. */
  predicate ReadsToAnswer(s: Session, r: Reply) {
    && (s.stage.QaActive? || s.stage.QaActiveReopened?) && r.supplement.NotMaterial? && s.cursor.current.Some?
    && !r.intent.More? && !r.intent.Done? && !r.intent.ForceClose?
  }

  /** How such a session meets an event. */
  function Blinded(s: Session, e: Event): Event {
    e.(env := Blind(e.env), cut := if ReadsToAnswer(s, e.reply) && e.cut != Some(0) then Some(1) else e.cut)
  }

  function BlindStep(cfg: Config, s: Session, e: Event): Session { Step(cfg, s, Blinded(s, e)) }

  function BlindExec(cfg: Config, s: Session, es: seq<Event>): Session
    decreases |es|
  {
    if es == [] then s else BlindExec(cfg, BlindStep(cfg, s, es[0]), es[1..])
  }

  // ── out of reach ────────────────────────────────────────

  /** Wedged, or where every handler reads before its first write. */
  predicate Sightless(s: Session) {
    Wedged(s) || (s.status.Active? && (s.stage.Merging? || s.stage.Closing? || s.stage.Intake?))
  }

  lemma SightlessStays(cfg: Config, s: Session, e: Event)
    requires Sightless(s)
    ensures BlindStep(cfg, s, e) == s
  {
    if Wedged(s) {
      var v := Blinded(s, e);
      WedgedForever(cfg, s, [v]);
      assert Exec(cfg, s, [v]) == Step(cfg, s, v);
    } else {
      NothingWritten(cfg, s, e.reply, e.env);
    }
  }

  lemma NothingWritten(cfg: Config, s: Session, r: Reply, e: Env)
    requires s.stage.Merging? || s.stage.Closing? || s.stage.Intake?
    ensures ReplyT(cfg, s, r, Blind(e)) == []
  {
  }

  /** An event that still moves such a session on. */
  lemma MovesStill(cfg: Config, s: Session)
    requires GateInv(cfg, s) && s.status.Active? && !Sightless(s)
    ensures BlindStep(cfg, s, Mover(s)) != s
  {
    match s.stage
    case Scanning => ScanDown(cfg, s);
    case AwaitingCloseConfirmation =>
      var a := s.(stage := Merging);
      assert ReplyT(cfg, s, Mover(s).reply, Blind(DOWN)) == [a];
    case _ =>
  }

  /** An ACTIVE session whose findings cannot be read is out of reach of every message exactly when it is
      wedged, or in MERGING or CLOSING, or still at INTAKE. */
  lemma SightlessIff(cfg: Config, s: Session)
    requires GateInv(cfg, s) && s.status.Active?
    ensures Sightless(s) <==> forall e :: BlindStep(cfg, s, e) == s
  {
    if Sightless(s) {
      forall e ensures BlindStep(cfg, s, e) == s {
        SightlessStays(cfg, s, e);
      }
    } else {
      MovesStill(cfg, s);
    }
  }

  // ── whatever happens ────────────────────────────────────

  /** Not delivered, and no finding answered: at most new ones are added. */
  ghost predicate Unmoved(s: Session, x: Session) {
    !x.status.Closed? && s.findings <= x.findings
  }

  ghost predicate AllUnmoved(s: Session, t: seq<Session>) {
    forall i :: 0 <= i < |t| ==> Unmoved(s, t[i])
  }

  lemma UnmovedCat(s: Session, t: seq<Session>, u: seq<Session>)
    requires AllUnmoved(s, t) && AllUnmoved(s, u)
    ensures AllUnmoved(s, t + u)
  {
  }

  lemma ScanUnmoved(cfg: Config, s: Session, e: Env)
    requires s.status.Active?
    ensures AllUnmoved(s, ScanT(cfg, s, Blind(e)))
  {
    hide Prioritize, FirstCursor;
    if s.stage.Scanning? || s.stage.SubjectConfirmation? {
      var s0 := s.(stage := Scanning);
      ScanRunUnmoved(cfg, s0, Blind(e));
      BlindEmit(End(s0, ScanRunT(cfg, s0, Blind(e))), e);
    }
  }

  lemma BlindEmit(s: Session, e: Env)
    ensures EmitT(s, Blind(e)) == []
  {
  }

  lemma ScanRunUnmoved(cfg: Config, s: Session, e: Env)
    requires s.status.Active?
    ensures AllUnmoved(s, ScanRunT(cfg, s, e))
  {
    hide Prioritize, FirstCursor;
  }

  /** A close raises at its merge. */
  lemma ChainNothing(cfg: Config, s: Session, forced: bool, e: Env)
    ensures ChainT(cfg, s, forced, Blind(e)) == []
  {
  }

  lemma BusyUnmoved(cfg: Config, s: Session, e: Env)
    requires s.status.Active? && BusyKey(s.stage).Some?
    ensures AllUnmoved(s, BusyT(cfg, s, Blind(e)))
  {
    if s.stage.Scanning? {
      ScanUnmoved(cfg, s, e);
    }
  }

  lemma PullUnmoved(cfg: Config, s: Session, e: Env)
    requires s.status.Active?
    ensures AllUnmoved(s, PullAtCloseT(cfg, s, Blind(e)))
  {
    BlindEmit(End(s, PulledT(cfg, s)), e);
  }

  /** What Q&A still does with a reply: to stop, to pull, to propose a close, to force one. */
  lemma QaUnmoved(cfg: Config, s: Session, r: Reply, e: Env)
    requires s.status.Active? && (s.stage.QaActive? || s.stage.QaActiveReopened?) && !ReadsToAnswer(s, r)
    ensures AllUnmoved(s, QaT(cfg, s, r, Blind(e)))
  {
    hide ScanT, ChainT, EmitT;
    var s0 := s.(stage := QaActive);
    if r.supplement.Appended? {
      var t := RescanStartT(s0);
      ScanUnmoved(cfg, t[1], e);
      UnmovedCat(s, t, ScanT(cfg, t[1], Blind(e)));
      UnmovedCat(s, [s0], RescanT(cfg, s0, Blind(e)));
    } else if r.supplement.NotMaterial? {
      var (t, act) := QaReplyT(cfg, s0, r.intent);
      assert AllUnmoved(s, t) && End(s0, t).findings == s.findings && End(s0, t).status.Active?;
      BlindEmit(End(s0, t), e);
      ChainNothing(cfg, End(s0, t), true, e);
      UnmovedCat(s, [s0], t);
      UnmovedCat(s, [s0] + t, ActT(cfg, End(s0, t), act, Blind(e)));
    }
  }

  lemma ReplyUnmoved(cfg: Config, s: Session, r: Reply, e: Env)
    requires s.status.Active? && !ReadsToAnswer(s, r)
    ensures AllUnmoved(s, ReplyT(cfg, s, r, Blind(e)))
  {
    hide ScanT, ChainT, QaT, PulledT, GateT;
    match s.stage
    case AwaitingMaterialConfirm =>
    case SubjectConfirmation => ScanUnmoved(cfg, s.(stage := Scanning), e);
    case QaActive => QaUnmoved(cfg, s, r, e);
    case QaActiveReopened => QaUnmoved(cfg, s, r, e);
    case AwaitingCloseConfirmation =>
      ChainNothing(cfg, s.(stage := Merging), false, e);
      ChainNothing(cfg, s, true, e);
      PullUnmoved(cfg, s, e);
    case _ =>
      if BusyKey(s.stage).Some? {
        BusyUnmoved(cfg, s, e);
      } else {
        ChainNothing(cfg, s, false, e);
      }
  }

  lemma AnswerUnmoved(cfg: Config, s: Session, r: Reply, e: Env)
    requires s.status.Active? && ReadsToAnswer(s, r)
    ensures Unmoved(s, ReplyT(cfg, s, r, e)[0]) && |ReplyT(cfg, s, r, e)| > 0
  {
    hide QaReplyT, ActT;
  }

  lemma StepUnmoved(cfg: Config, s: Session, e: Event)
    requires !s.status.Closed?
    ensures Unmoved(s, BlindStep(cfg, s, e))
  {
    hide ReplyT;
    var v := Blinded(s, e);
    var t := StepT(cfg, s, v);
    if t != [] {
      var u := ReplyT(cfg, s, e.reply, Blind(e.env));
      assert t[|t| - 1] == u[|t| - 1];
      if ReadsToAnswer(s, e.reply) {
        AnswerUnmoved(cfg, s, e.reply, Blind(e.env));
      } else {
        ReplyUnmoved(cfg, s, e.reply, e.env);
      }
    }
  }

  /** Over all runs, cuts included: such a session is never CLOSED, and no answer is ever stored. */
  lemma {:induction false} NeverClosed(cfg: Config, s: Session, es: seq<Event>)
    requires !s.status.Closed?
    ensures var x := BlindExec(cfg, s, es); !x.status.Closed? && s.findings <= x.findings
    decreases |es|
  {
    hide BlindStep;
    if es != [] {
      StepUnmoved(cfg, s, es[0]);
      NeverClosed(cfg, BlindStep(cfg, s, es[0]), es[1..]);
    }
  }
}
