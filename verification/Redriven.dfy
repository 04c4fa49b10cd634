/** Messages whose handling the process did not survive: the task queue delivers them again before
    any later message of the requester. What that repairs, and what it does not. */
module Redriven {
  import opened Models
  import opened Scan
  import opened Protocol
  import opened Coverage
  import opened Wedges
  import opened Gaps

  /** The same text once more: material that was already appended is no longer new. */
  predicate Reread(r: Reply, q: Reply) {
    q == r || (r.supplement.Appended? && q == r.(supplement := NotMaterial))
  }

  /** The deliveries of one message: cut short any number of times, and then handled to the end. */
  predicate Deliveries(es: seq<Event>) {
    && es != [] && es[|es| - 1].cut.None?
    && (forall i :: 0 <= i < |es| - 1 ==> es[i].cut.Some? && Reread(es[i].reply, es[i + 1].reply))
  }

  predicate Asks(s: Session) { s.stage.QaActive? || s.stage.QaActiveReopened? }

  /** Nothing is hidden in Q&A: there is a question on screen, or none can be pulled. */
  predicate Ready(cfg: Config, s: Session) {
    !Gap(s) && (s.status.Active? && Asks(s) ==> s.cursor.current.Some? || Take(s.cursor.deferred, cfg.topN) == [])
  }

  /** An answer that moves on to the next question. */
  predicate MovesOn(r: Reply) {
    && r.supplement.NotMaterial?
    && !r.intent.More? && !r.intent.Done? && !r.intent.ForceClose? && !r.intent.Question?
  }

  /** What holds between two deliveries of a message. */
  predicate Mid(cfg: Config, s: Session, r: Reply) {
    !Gap(s) && (Ready(cfg, s) || (Asks(s) && MovesOn(r)))
  }

  ghost predicate AllReady(cfg: Config, t: seq<Session>) {
    forall i :: 0 <= i < |t| ==> Ready(cfg, t[i])
  }

  lemma ReadyCat(cfg: Config, t: seq<Session>, u: seq<Session>)
    requires AllReady(cfg, t) && AllReady(cfg, u)
    ensures AllReady(cfg, t + u)
  {
  }

  /** A write that keeps cursor and stage, or leaves Q&A, or has a question on screen. */
  lemma StaysReady(cfg: Config, s: Session, x: Session)
    requires Ready(cfg, s) && x.cursor == s.cursor
    requires x.status.Active? && Asks(x) ==> s.status.Active? && Asks(s)
    ensures Ready(cfg, x)
  {
  }

  lemma StayReady(cfg: Config, s: Session, t: seq<Session>)
    requires Ready(cfg, s)
    requires forall i :: 0 <= i < |t| ==>
               t[i].cursor == s.cursor && (t[i].status.Active? && Asks(t[i]) ==> s.status.Active? && Asks(s))
    ensures AllReady(cfg, t)
  {
  }

  // ── handlers ────────────────────────────────────────────

  lemma EmitReady(cfg: Config, s: Session, e: Env)
    requires Ready(cfg, s)
    ensures AllReady(cfg, EmitT(s, e))
  {
  }

  lemma FirstCursorReady(ids: seq<Id>, n: int)
    ensures var c := FirstCursor(ids, n);
            c.current.Some? || (c.pending == [] && Take(c.deferred, n) == [])
  {
  }

  lemma FoundReady(cfg: Config, s: Session, found: seq<Finding>)
    requires Ready(cfg, s) && s.stage.Scanning?
    ensures AllReady(cfg, FoundT(cfg, s, found)) && Ready(cfg, End(s, FoundT(cfg, s, found)))
  {
    hide FirstCursor, Prioritize, Appends;
    var d := WithFirstCursor(cfg, s, found);
    FirstCursorReady(Prioritize(found), cfg.topN);
    StoredReady(cfg, s, Opened(found));
    ReadyCat(cfg, Appends(s, Opened(found)), [d, d.(stage := QaActive)]);
  }

  lemma StoredReady(cfg: Config, s: Session, fs: seq<Finding>)
    requires Ready(cfg, s) && s.stage.Scanning?
    ensures AllReady(cfg, Appends(s, fs))
  {
    StayReady(cfg, s, Appends(s, fs));
  }

  lemma ScanRunReady(cfg: Config, s: Session, e: Env)
    requires Ready(cfg, s) && s.stage.Scanning?
    ensures AllReady(cfg, ScanRunT(cfg, s, e))
    ensures e.scan.Scanned? ==> Ready(cfg, End(s, ScanRunT(cfg, s, e)))
  {
    var a := Log(s, PillarCall);
    var b := Log(a, ResponderCall);
    if e.scan.Scanned? {
      FoundReady(cfg, b, e.scan.found);
      ReadyCat(cfg, [a, b], FoundT(cfg, b, e.scan.found));
      EndCat(s, [a, b], FoundT(cfg, b, e.scan.found));
    } else if e.scan.ScanStores? {
      StoredReady(cfg, b, Opened(e.scan.stored));
      ReadyCat(cfg, [a, b], Appends(b, Opened(e.scan.stored)));
    }
  }

  lemma ScanReady(cfg: Config, s: Session, e: Env)
    requires !Gap(s) && s.stage.Scanning?
    ensures AllReady(cfg, ScanT(cfg, s, e))
  {
    var t := ScanRunT(cfg, s, e);
    assert s == s.(stage := Scanning) && Ready(cfg, s);
    ScanRunReady(cfg, s, e);
    if e.scan.Scanned? {
      EmitReady(cfg, End(s, t), e);
      ReadyCat(cfg, [s], t);
      ReadyCat(cfg, [s] + t, EmitT(End(s, t), e));
    } else {
      ReadyCat(cfg, [s], t);
      assert [s] + t + [] == [s] + t;
    }
  }

  lemma AfterGateReady(cfg: Config, s: Session, forced: bool, e: Env)
    requires !Gap(s) && !Asks(s)
    ensures AllReady(cfg, AfterGateT(cfg, s, forced, e))
  {
    if s.verdict == Some(Fail) && !forced && OpenBlockers(s.findings) != [] && s.failCount < cfg.maxFails {
      var t := ReopenT(s, OpenBlockers(s.findings));
      ReopenedCursor(s.cursor, OpenBlockers(s.findings));
      assert AllReady(cfg, t);
      EmitReady(cfg, End(s, t), e);
      ReadyCat(cfg, t, EmitT(End(s, t), e));
    } else {
      CloseReady(cfg, s, forced, e);
    }
  }

  lemma CloseReady(cfg: Config, s: Session, forced: bool, e: Env)
    requires !Gap(s) && !Asks(s)
    requires !(s.verdict == Some(Fail) && !forced && OpenBlockers(s.findings) != [] && s.failCount < cfg.maxFails)
    ensures AllReady(cfg, AfterGateT(cfg, s, forced, e))
  {
    hide ReopenT, EmitT, OpenBlockers, Gap;
    CloseStays(s, e);
    CloseStays(s.(verdict := Some(ForcedPartial), stage := Closing), e);
    CloseStays(s.(verdict := Some(ForcedPartial)), e);
    StayReady(cfg, s, AfterGateT(cfg, s, forced, e));
  }

  lemma CloseStays(s: Session, e: Env)
    ensures forall i :: 0 <= i < |CloseT(s, e)| ==> CloseT(s, e)[i].cursor == s.cursor && !Asks(CloseT(s, e)[i])
  {
  }

  lemma GatedReady(cfg: Config, s: Session, forced: bool, e: Env)
    requires !Gap(s) && !Asks(s)
    ensures AllReady(cfg, GatedT(cfg, s, forced, e))
  {
    var t := GateT(s, forced, e);
    StayReady(cfg, s, t);
    if !GateAborts(e.gate) {
      AfterGateReady(cfg, End(s, t), forced, e);
      ReadyCat(cfg, t, AfterGateT(cfg, End(s, t), forced, e));
    }
  }

  lemma ChainReady(cfg: Config, s: Session, forced: bool, e: Env)
    requires Ready(cfg, s)
    ensures AllReady(cfg, ChainT(cfg, s, forced, e))
  {
    var t := MergeT(s, e);
    StayReady(cfg, s, t);
    if !MergeAborts(s, e) {
      GatedReady(cfg, End(s, t), forced, e);
      ReadyCat(cfg, t, GatedT(cfg, End(s, t), forced, e));
    }
  }

  lemma PulledReady(cfg: Config, s: Session, e: Env)
    requires Ready(cfg, s)
    ensures AllReady(cfg, PullAtCloseT(cfg, s, e))
  {
    if Take(s.cursor.deferred, cfg.topN) != [] {
      var t := PulledT(cfg, s);
      assert AllReady(cfg, t);
      EmitReady(cfg, End(s, t), e);
      ReadyCat(cfg, t, EmitT(End(s, t), e));
    }
  }

  lemma ConfirmReady(cfg: Config, s: Session, i: Intent, e: Env)
    requires Ready(cfg, s) && s.stage.AwaitingCloseConfirmation?
    ensures AllReady(cfg, ConfirmT(cfg, s, i, e))
  {
    hide ChainT;
    if i.Accept? || i.Done? || i.PickA? {
      var a := s.(stage := Merging);
      StaysReady(cfg, s, a);
      ChainReady(cfg, a, false, e);
      ReadyCat(cfg, [a], ChainT(cfg, a, false, e));
    } else if i.ForceClose? {
      ChainReady(cfg, s, true, e);
    } else if i.More? || i.PickB? {
      PulledReady(cfg, s, e);
    }
  }

  lemma BusyReady(cfg: Config, s: Session, e: Env)
    requires !Gap(s) && BusyKey(s.stage).Some?
    ensures AllReady(cfg, BusyT(cfg, s, e))
  {
    if s.stage.Scanning? {
      ScanReady(cfg, s, e);
    } else {
      StayReady(cfg, s, BusyT(cfg, s, e));
    }
  }

  /** Replies in Q&A that keep Ready at every write. */
  lemma QaReplyReady(cfg: Config, s: Session, r: Reply)
    requires Ready(cfg, s) && s.status.Active? && s.stage.QaActive? && r.supplement.NotMaterial? && !MovesOn(r)
    ensures AllReady(cfg, QaReplyT(cfg, s, r.intent).0) && Ready(cfg, End(s, QaReplyT(cfg, s, r.intent).0))
  {
  }

  lemma ActReady(cfg: Config, s: Session, act: Action, e: Env)
    requires Ready(cfg, s)
    ensures AllReady(cfg, ActT(cfg, s, act, e))
  {
    hide ChainT;
    match act
    case EmitNext => EmitReady(cfg, s, e);
    case ProposeClose =>
    case GoForceClose => ChainReady(cfg, s, true, e);
    case NoOp =>
  }

  lemma QaReady(cfg: Config, s: Session, r: Reply, e: Env)
    requires Ready(cfg, s) && s.status.Active? && Asks(s) && !MovesOn(r)
    ensures AllReady(cfg, QaT(cfg, s, r, e))
  {
    var s0 := s.(stage := QaActive);
    StaysReady(cfg, s, s0);
    if r.supplement.Appended? {
      var t := RescanStartT(s0);
      assert AllReady(cfg, t);
      ScanReady(cfg, t[1], e);
      ReadyCat(cfg, t, ScanT(cfg, t[1], e));
      ReadyCat(cfg, [s0], RescanT(cfg, s0, e));
    } else if r.supplement.NotMaterial? {
      var (t, act) := QaReplyT(cfg, s0, r.intent);
      QaReplyReady(cfg, s0, r);
      ActReady(cfg, End(s0, t), act, e);
      ReadyCat(cfg, [s0], t);
      ReadyCat(cfg, [s0] + t, ActT(cfg, End(s0, t), act, e));
    }
  }

  lemma SubjectReady(cfg: Config, s: Session, r: Reply, e: Env)
    requires Ready(cfg, s) && s.stage.SubjectConfirmation?
    ensures AllReady(cfg, SubjectT(cfg, s, r, e))
  {
    if r.newMaterial {
      StayReady(cfg, s, SubjectT(cfg, s, r, e));
    } else if r.picksSubject {
      var a := s.(stage := Scanning);
      ScanReady(cfg, a, e);
      ReadyCat(cfg, [a], ScanT(cfg, a, e));
    }
  }

  lemma ReplyReady(cfg: Config, s: Session, r: Reply, e: Env)
    requires Ready(cfg, s) && s.status.Active? && (Asks(s) ==> !MovesOn(r))
    ensures AllReady(cfg, ReplyT(cfg, s, r, e))
  {
    hide QaT, ConfirmT, SubjectT, BusyT, ChainT;
    match s.stage
    case AwaitingMaterialConfirm => StayReady(cfg, s, MaterialT(s, r, e));
    case SubjectConfirmation => SubjectReady(cfg, s, r, e);
    case QaActive => QaReady(cfg, s, r, e);
    case QaActiveReopened => QaReady(cfg, s, r, e);
    case AwaitingCloseConfirmation => ConfirmReady(cfg, s, r.intent, e);
    case _ =>
      if BusyKey(s.stage).Some? {
        BusyReady(cfg, s, e);
      } else {
        ChainReady(cfg, s, false, e);
      }
  }

  // ── the deliveries of one message ───────────────────────

  lemma CutKeepsMid(cfg: Config, s: Session, e: Event, q: Reply)
    requires Mid(cfg, s, e.reply) && Reread(e.reply, q)
    ensures Mid(cfg, Step(cfg, s, e), q)
  {
    var t := StepT(cfg, s, e);
    if t != [] {
      var u := ReplyT(cfg, s, e.reply, e.env);
      var k := |t| - 1;
      assert t[k] == u[k];
      if Asks(s) && MovesOn(e.reply) {
        GapIff(cfg, s, e.reply, e.env, k);
      } else {
        ReplyReady(cfg, s, e.reply, e.env);
      }
    }
  }

  /** An answer that is handled to its end leaves Q&A or has the next question on screen. */
  lemma AnsweredReady(cfg: Config, s: Session, r: Reply, e: Env)
    requires !Gap(s) && s.status.Active? && Asks(s) && MovesOn(r)
    ensures Ready(cfg, End(s, QaT(cfg, s, r, e)))
  {
    var s0 := s.(stage := QaActive);
    var (t, act) := QaReplyT(cfg, s0, r.intent);
    QaEnd(cfg, s, r, e);
    if act.EmitNext? {
      assert End(s0, t).cursor.current.Some?;
      EmitEnds(End(s0, t), e);
    }
  }

  lemma EmitEnds(s: Session, e: Env)
    ensures End(s, EmitT(s, e)).cursor == s.cursor
    ensures forall i :: 0 <= i < |EmitT(s, e)| ==>
              EmitT(s, e)[i].cursor == s.cursor && (EmitT(s, e)[i].status.Active? ==> EmitT(s, e)[i].stage == s.stage)
  {
  }

  lemma WholeIsReady(cfg: Config, s: Session, e: Event)
    requires Mid(cfg, s, e.reply) && e.cut.None?
    ensures Ready(cfg, Step(cfg, s, e))
  {
    if s.status.Active? {
      if Asks(s) && MovesOn(e.reply) {
        AnsweredReady(cfg, s, e.reply, e.env);
      } else {
        ReplyReady(cfg, s, e.reply, e.env);
      }
    }
  }

  /** No gap at the start of the deliveries, nor after any of them. */
  predicate NeverGap(cfg: Config, s: Session, es: seq<Event>)
    decreases |es|
  {
    !Gap(s) && (es == [] || NeverGap(cfg, Step(cfg, s, es[0]), es[1..]))
  }

  lemma {:induction false} DeliveriesReady(cfg: Config, s: Session, es: seq<Event>)
    requires Deliveries(es) && Mid(cfg, s, es[0].reply)
    ensures Ready(cfg, Exec(cfg, s, es)) && NeverGap(cfg, s, es)
    decreases |es|
  {
    hide Step, Ready, Reread;
    var x := Step(cfg, s, es[0]);
    if |es| == 1 {
      WholeIsReady(cfg, s, es[0]);
      ReadyNoGap(cfg, x);
      assert es[1..] == [];
    } else {
      CutKeepsMid(cfg, s, es[0], es[1].reply);
      assert forall i :: 0 <= i < |es[1..]| ==> es[1..][i] == es[i + 1];
      DeliveriesReady(cfg, x, es[1..]);
    }
  }

  lemma ReadyNoGap(cfg: Config, s: Session)
    requires Ready(cfg, s)
    ensures !Gap(s)
  {
  }

  // ── runs ────────────────────────────────────────────────

  /** Between messages the session is ready, and there is no gap between the deliveries of one. */
  predicate NothingHidden(cfg: Config, s: Session, ms: seq<seq<Event>>)
    decreases |ms|
  {
    Ready(cfg, s) && (ms == [] || (NeverGap(cfg, s, ms[0]) && NothingHidden(cfg, Exec(cfg, s, ms[0]), ms[1..])))
  }

  /** Whenever the process dies, if every message that it did not survive is delivered again before
      the next one: questions are never in line with none on screen, and at rest Q&A has a question
      on screen unless none can be pulled. */
  lemma {:induction false} RedrivingHidesNothing(cfg: Config, s: Session, ms: seq<seq<Event>>)
    requires Ready(cfg, s) && forall i :: 0 <= i < |ms| ==> Deliveries(ms[i])
    ensures NothingHidden(cfg, s, ms)
    decreases |ms|
  {
    if ms != [] {
      DeliveriesReady(cfg, s, ms[0]);
      RedrivingHidesNothing(cfg, Exec(cfg, s, ms[0]), ms[1..]);
    }
  }

  // ── where re-driving does not help ──────────────────────

  const MORE := QUIET.(intent := More)

  /** At the close prompt with questions on screen or in line. */
  predicate Stranded(s: Session) {
    s.status.Active? && s.stage.AwaitingCloseConfirmation? && (s.cursor.current.Some? || s.cursor.pending != [])
  }

  /** The call that puts the first question pulled fails terminally. */
  predicate EmitFails(cfg: Config, s: Session, e: Env) {
    var c := Advanced(Pulled(s.cursor, cfg.topN));
    e.emit.Down? && c.current.Some? && c.current.value in IdsOf(s.findings)
  }

  /** `more` at the close prompt, cut after k writes. */
  lemma CutMore(cfg: Config, s: Session, e: Env, k: nat)
    requires s.status.Active? && s.stage.AwaitingCloseConfirmation? && Take(s.cursor.deferred, cfg.topN) != []
    ensures var x := Step(cfg, s, Event(MORE, e, Some(k)));
            if k == 0 then x == s
            else && x.cursor == Advanced(Pulled(s.cursor, cfg.topN))
                 && (x.status.Active? ==> x.stage == if k == 1 then AwaitingCloseConfirmation else QaActive)
                 && (x.status.Active? <==> !(k >= 3 && EmitFails(cfg, s, e)))
  {
    var t := PulledT(cfg, s);
    var u := EmitT(End(s, t), e);
    assert ReplyT(cfg, s, MORE, e) == t + u;
    var w := Kept(t + u, Some(k));
    assert StepT(cfg, s, Event(MORE, e, Some(k))) == w;
    assert |t| == 2 && t[0].cursor == t[1].cursor == Advanced(Pulled(s.cursor, cfg.topN));
    EmitEnds(End(s, t), e);
    if |w| >= 3 {
      assert w[|w| - 1] == u[|w| - 3];
    } else if k >= 2 {
      assert w == t;
    }
  }

  lemma MoreInQa(cfg: Config, x: Session, e: Env)
    requires x.status.Active? && x.stage.QaActive? && x.cursor.current.Some?
    ensures var y := Step(cfg, x, Event(MORE, e, None));
            && y.cursor == Pulled(x.cursor, cfg.topN)
            && (y.status.Active? ==> (y.stage.AwaitingCloseConfirmation? <==> Take(x.cursor.deferred, cfg.topN) == []))
            && (Take(x.cursor.deferred, cfg.topN) == [] ==> y.status.Active?)
  {
    var c := x.(cursor := Pulled(x.cursor, cfg.topN));
    if Take(x.cursor.deferred, cfg.topN) == [] {
      assert QaT(cfg, x, MORE, e) == [x, c, c.(stage := AwaitingCloseConfirmation)];
    } else {
      assert QaT(cfg, x, MORE, e) == [x, c] + EmitT(c, e);
      EndCat(x, [x, c], EmitT(c, e));
      EmitStage(c, e);
      EmitEnds(c, e);
    }
  }

  lemma MoreAtPrompt(cfg: Config, x: Session, e: Env)
    requires x.status.Active? && x.stage.AwaitingCloseConfirmation?
    ensures var y := Step(cfg, x, Event(MORE, e, None));
            if Take(x.cursor.deferred, cfg.topN) == [] then y == x
            else y.cursor == Advanced(Pulled(x.cursor, cfg.topN)) && (y.status.Active? ==> y.stage.QaActive?)
  {
    assert StepT(cfg, x, Event(MORE, e, None)) == PullAtCloseT(cfg, x, e);
    if Take(x.cursor.deferred, cfg.topN) != [] {
      var t := PulledT(cfg, x);
      EndCat(x, t, EmitT(End(x, t), e));
      EmitStage(End(x, t), e);
      EmitEnds(End(x, t), e);
    }
  }

  /** `more` at the close prompt, cut after k writes and delivered again, leaves questions stranded
      there exactly when it had stored the cursor and that left nothing more to pull (the second
      `more` then changes nothing, or proposes to close) and it was not cut after a terminal failure of
      the call for the first question; or when there was nothing to pull and they were there before. */
  lemma StrandedIff(cfg: Config, s: Session, e: Env, again: Env, k: nat)
    requires s.status.Active? && s.stage.AwaitingCloseConfirmation?
    ensures var n := cfg.topN;
            var x := Step(cfg, s, Event(MORE, e, Some(k)));
            var y := Step(cfg, x, Event(MORE, again, None));
            && (Stranded(y) <==>
                  if Take(s.cursor.deferred, n) == [] then Stranded(s)
                  else k >= 1 && !(k >= 3 && EmitFails(cfg, s, e)) && Take(Drop(s.cursor.deferred, n), n) == [])
            && (Stranded(y) && k == 1 ==> y == x)
  {
    var n := cfg.topN;
    var x := Step(cfg, s, Event(MORE, e, Some(k)));
    if Take(s.cursor.deferred, n) == [] {
      assert x == s;
      MoreAtPrompt(cfg, x, again);
    } else {
      CutMore(cfg, s, e, k);
      if k <= 1 {
        MoreAtPrompt(cfg, x, again);
      } else if x.status.Active? {
        MoreInQa(cfg, x, again);
      } else {
        Inactive(cfg, x, Event(MORE, again, None));
      }
    }
  }

  lemma Inactive(cfg: Config, s: Session, e: Event)
    requires !s.status.Active?
    ensures Step(cfg, s, e) == s
  {
  }

  /** What `more` at the close prompt passes over: the questions on screen and in line once it has
      pulled. */
  function PromptLine(cfg: Config, s: Session): seq<Id> {
    CurrentSeq(s.cursor) + s.cursor.pending + Take(s.cursor.deferred, cfg.topN)
  }

  /** How many of them a `more` cut after k writes and delivered again moves to done: the one on
      screen, and the next one too if it was cut right after it had stored the cursor and there is
      more to pull. */
  function PassedOver(cfg: Config, s: Session, k: nat): nat {
    |CurrentSeq(s.cursor)|
    + if k == 1 && Take(Drop(s.cursor.deferred, cfg.topN), cfg.topN) != [] then 1 else 0
  }

  lemma AdvancedDone(c: CursorData)
    ensures forall id :: id in Advanced(c).done <==> id in c.done || id in CurrentSeq(c)
    ensures c.pending != [] ==> CurrentSeq(Advanced(c)) == [c.pending[0]]
  {
  }

  /** The done list after both deliveries, in terms of the cursor alone. */
  lemma MoreTwice(cfg: Config, s: Session, e: Env, again: Env, k: nat)
    requires s.status.Active? && s.stage.AwaitingCloseConfirmation? && Take(s.cursor.deferred, cfg.topN) != []
    ensures var n := cfg.topN;
            var c := Advanced(Pulled(s.cursor, n));
            var y := Step(cfg, Step(cfg, s, Event(MORE, e, Some(k))), Event(MORE, again, None));
            y.cursor.done == if k == 1 && Take(c.deferred, n) != [] then Advanced(Pulled(c, n)).done else c.done
  {
    var x := Step(cfg, s, Event(MORE, e, Some(k)));
    CutMore(cfg, s, e, k);
    if k <= 1 {
      MoreAtPrompt(cfg, x, again);
    } else if x.status.Active? {
      assert x.cursor.current.Some? by {
        PulledShows(s.cursor, cfg.topN);
      }
      MoreInQa(cfg, x, again);
    } else {
      Inactive(cfg, x, Event(MORE, again, None));
    }
  }

  lemma PulledShows(c: CursorData, n: int)
    requires Take(c.deferred, n) != []
    ensures Pulled(c, n).pending != [] && Advanced(Pulled(c, n)).current.Some?
  {
  }

  /** For every cursor at the close prompt with something to pull: exactly which questions are done
      after a `more` that is cut after k writes and delivered again. */
  lemma DoneAfterMore(cfg: Config, s: Session, e: Env, again: Env, k: nat)
    requires s.status.Active? && s.stage.AwaitingCloseConfirmation? && Take(s.cursor.deferred, cfg.topN) != []
    ensures var x := Step(cfg, s, Event(MORE, e, Some(k)));
            var y := Step(cfg, x, Event(MORE, again, None));
            && PassedOver(cfg, s, k) <= |PromptLine(cfg, s)|
            && forall id :: id in y.cursor.done <==>
                 id in s.cursor.done || id in PromptLine(cfg, s)[..PassedOver(cfg, s, k)]
  {
    var n, c := cfg.topN, Pulled(s.cursor, cfg.topN);
    var more := k == 1 && Take(Drop(s.cursor.deferred, n), n) != [];
    MoreTwice(cfg, s, e, again, k);
    PulledShows(s.cursor, n);
    PromptLineIs(cfg, s);
    DoneInLine(c, n, more);
    var y := Step(cfg, Step(cfg, s, Event(MORE, e, Some(k))), Event(MORE, again, None));
    assert y.cursor.done == if more then Advanced(Pulled(Advanced(c), n)).done else Advanced(c).done;
    var p := PassedOver(cfg, s, k);
    forall id: Id ensures id in y.cursor.done <==> id in s.cursor.done || id in PromptLine(cfg, s)[..p] {
      assert id in y.cursor.done <==> id in c.done || id in (CurrentSeq(c) + c.pending)[..p];
    }
  }

  lemma PromptLineIs(cfg: Config, s: Session)
    ensures var c := Pulled(s.cursor, cfg.topN);
            && PromptLine(cfg, s) == CurrentSeq(c) + c.pending && CurrentSeq(c) == CurrentSeq(s.cursor)
            && c.done == s.cursor.done && Advanced(c).deferred == Drop(s.cursor.deferred, cfg.topN)
  {
  }

  /** One advance moves what is on screen to done; a second one, after pulling again, the next one. */
  lemma DoneInLine(c: CursorData, n: int, twice: bool)
    requires c.pending != []
    ensures var p := |CurrentSeq(c)| + if twice then 1 else 0;
            var done := if twice then Advanced(Pulled(Advanced(c), n)).done else Advanced(c).done;
            && p <= |CurrentSeq(c) + c.pending|
            && forall id :: id in done <==> id in c.done || id in (CurrentSeq(c) + c.pending)[..p]
  {
    var line := CurrentSeq(c) + c.pending;
    AdvancedDone(c);
    assert line[..|CurrentSeq(c)|] == CurrentSeq(c);
    if twice {
      var d := Pulled(Advanced(c), n);
      AdvancedDone(d);
      assert CurrentSeq(d) == [c.pending[0]] && d.done == Advanced(c).done;
      assert line[..|CurrentSeq(c)| + 1] == CurrentSeq(c) + [c.pending[0]];
    }
  }

  /** So from a close prompt with nothing on screen it passes over the first question that it pulled,
      which is then done without having been asked, exactly when it was cut right after it had stored
      the cursor and there is more to pull. */
  lemma SkippedIff(cfg: Config, s: Session, e: Env, again: Env, k: nat)
    requires s.status.Active? && s.stage.AwaitingCloseConfirmation? && s.cursor.current.None?
    requires Take(s.cursor.deferred, cfg.topN) != [] && PromptLine(cfg, s)[0] !in s.cursor.done
    ensures var n := cfg.topN;
            var x := Step(cfg, s, Event(MORE, e, Some(k)));
            var y := Step(cfg, x, Event(MORE, again, None));
            PromptLine(cfg, s)[0] in y.cursor.done <==> k == 1 && Take(Drop(s.cursor.deferred, n), n) != []
  {
    DoneAfterMore(cfg, s, e, again, k);
    var p := PassedOver(cfg, s, k);
    if p == 1 {
      assert PromptLine(cfg, s)[..1][0] == PromptLine(cfg, s)[0];
    }
  }

  // ── handlers that raise are not re-driven ───────────────

  lemma CutPass(cfg: Config, s: Session, e: Env)
    requires s.status.Active? && s.stage.QaActive? && s.cursor.current.Some?
    ensures Step(cfg, s, Event(QUIET, e, Some(2))) == s.(cursor := Advanced(s.cursor), asked := s.asked + 1)
  {
    var x := s.(cursor := Advanced(s.cursor), asked := s.asked + 1);
    assert QaReplyT(cfg, s, QUIET.intent).0 == [x] && s.(stage := QaActive) == s;
    CutAfterReply(cfg, s, QUIET, e);
  }

  /** Cut after as many writes as the reply itself makes, two in all. */
  lemma CutAfterReply(cfg: Config, s: Session, r: Reply, e: Env)
    requires s.status.Active? && s.stage.QaActive? && r.supplement.NotMaterial?
    ensures var t := QaReplyT(cfg, s, r.intent).0;
            t != [] ==> Step(cfg, s, Event(r, e, Some(2))) == t[0]
  {
    hide QaReplyT, ActT;
    var (t, act) := QaReplyT(cfg, s, r.intent);
    var u := QaT(cfg, s, r, e);
    assert s.(stage := QaActive) == s;
    assert u == [s] + t + ActT(cfg, End(s, t), act, e) && ReplyT(cfg, s, r, e) == u;
    if t != [] {
      assert Kept(u, Some(2)) == [s, t[0]];
    }
  }

  lemma CutInsideMore(cfg: Config, x: Session, e: Env)
    requires x.status.Active? && x.stage.QaActive? && x.cursor.current.None?
    requires Take(x.cursor.deferred, cfg.topN) != []
    ensures var y := x.(cursor := Pulled(x.cursor, cfg.topN));
            && Step(cfg, x, Event(MORE, e, Some(2))) == y
            && Step(cfg, y, Event(YES, e, None)) == y.(stage := AwaitingCloseConfirmation)
  {
    var y := x.(cursor := Pulled(x.cursor, cfg.topN));
    CutAfterReply(cfg, x, MORE, e);
    assert QaT(cfg, y, YES, e) == [y, y.(stage := AwaitingCloseConfirmation)];
  }

  const YES := QUIET.(intent := Accept)

  /** A handler that a storage operation makes raise is not re-driven. If that happens after the
      cursor write of the last answer, and again after the first cursor write of `more`, questions are
      in line, none is on screen, and the next answer proposes to close. */
  lemma RaisingHidesQuestions(cfg: Config, s: Session, e: Env)
    requires s.status.Active? && s.stage.QaActive? && s.cursor.current.Some? && s.cursor.pending == []
    requires Take(s.cursor.deferred, cfg.topN) != []
    ensures var x := Step(cfg, s, Event(QUIET, e, Some(2)));
            var y := Step(cfg, x, Event(MORE, e, Some(2)));
            var z := Step(cfg, y, Event(YES, e, None));
            && y.cursor.current.None? && y.cursor.pending != []
            && z.stage.AwaitingCloseConfirmation? && z.cursor == y.cursor && z.findings == s.findings
  {
    var x := s.(cursor := Advanced(s.cursor), asked := s.asked + 1);
    CutPass(cfg, s, e);
    CutInsideMore(cfg, x, e);
  }
}
