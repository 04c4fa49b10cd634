/** What a message adds to the log of model calls, what it may fail, and that each write changes one
    store only. */
module Outcomes {
  import opened Models
  import opened Scan
  import opened Protocol
  import opened GateSafety
  import opened Wedges

  // ── the ledger of calls ─────────────────────────────────

  /** A call is logged once the model has answered it, whatever the answer is worth. */
  predicate Answered(a: Answer) { a.Breaks? || a.Fine? }

  function One(a: Answer, c: Call): seq<Call> { if Answered(a) then [c] else [] }

  /** The question on screen is put to the requester if it names a stored finding. */
  function Question(x: Session, e: Env): seq<Call> {
    if x.cursor.current.Some? && x.cursor.current.value in IdsOf(x.findings) then One(e.emit, EmitCall) else []
  }

  function ScanCalls(a: ScanAnswer): seq<Call> {
    match a
    case NoAnswer => []
    case OneAnswer => [PillarCall]
    case TwoAnswers => [PillarCall, ResponderCall]
    case ScanRaises(n) => [PillarCall, ResponderCall][..if n < 2 then n else 2]
    case ScanStores(_) => [PillarCall, ResponderCall]
    case Scanned(_) => [PillarCall, ResponderCall]
  }

  function GateCalls(g: GateAnswer): seq<Call> {
    if g.GateGarbled? || g.GateBreaks? || g.GateSays? then [GateCall] else []
  }

  /** After a gate: the next question if Q&A was reopened, and the summary otherwise. */
  function LastCalls(s: Session, x: Session, e: Env): seq<Call> {
    if x.roundNo > s.roundNo then Question(x, e) else One(e.summary, SummaryCall)
  }

  function CloseCalls(s: Session, x: Session, e: Env): seq<Call> {
    if !s.material then []
    else
      One(e.merge, MergeCall) +
      if e.merge.Raises? || e.merge.Breaks? then []
      else GateCalls(e.gate) + if GateAborts(e.gate) then [] else LastCalls(s, x, e)
  }

  function ScanAndAsk(x: Session, e: Env): seq<Call> {
    ScanCalls(e.scan) + if e.scan.Scanned? then Question(x, e) else []
  }

  /** The calls that a reply logs, from s to x, if its handler is not cut. */
  function CallsMade(s: Session, r: Reply, e: Env, x: Session): seq<Call> {
    match s.stage
    case AwaitingMaterialConfirm => if r.material.StartReview? then One(e.topic, TopicCall) else []
    case SubjectConfirmation =>
      if r.newMaterial then One(e.topic, TopicCall) else if r.picksSubject then ScanAndAsk(x, e) else []
    case QaActive => QaCalls(s, r, e, x)
    case QaActiveReopened => QaCalls(s, r, e, x)
    case AwaitingCloseConfirmation =>
      if r.intent.Accept? || r.intent.Done? || r.intent.PickA? || r.intent.ForceClose? then CloseCalls(s, x, e)
      else if x.stage.QaActive? then Question(x, e) else []
    case Intake => if r.intent.Accept? || r.intent.Done? then CloseCalls(s, x, e) else []
    case _ =>
      if Wedged(s) then []
      else match s.stage
        case Scanning => ScanAndAsk(x, e)
        case Merging => One(e.merge, MergeCall)
        case FinalGating => GateCalls(e.gate)
        case Closing => One(e.summary, SummaryCall)
        case _ => []
  }

  function QaCalls(s: Session, r: Reply, e: Env, x: Session): seq<Call> {
    if r.supplement.Appended? then ScanAndAsk(x, e)
    else if r.supplement.Unreadable? then []
    else if r.intent.ForceClose? then CloseCalls(s, x, e)
    else if x.stage.QaActive? && !r.intent.Question? then Question(x, e)
    else []
  }

  lemma EmitCalls(s: Session, e: Env)
    ensures var x := End(s, EmitT(s, e));
            && x.calls == s.calls + Question(s, e) && Question(x, e) == Question(s, e)
            && x.cursor == s.cursor && x.findings == s.findings && x.roundNo == s.roundNo
  {
    assert s.calls + [] == s.calls;
  }

  lemma ScanRunCalls(cfg: Config, s: Session, e: Env)
    ensures End(s, ScanRunT(cfg, s, e)).calls == s.calls + ScanCalls(e.scan)
  {
    hide Prioritize, FirstCursor;
    var a := Log(s, PillarCall);
    var b := Log(a, ResponderCall);
    assert s.calls + [] == s.calls && b.calls == s.calls + [PillarCall, ResponderCall];
    if e.scan.Scanned? {
      EndCat(s, [a, b], FoundT(cfg, b, e.scan.found));
    } else if e.scan.ScanStores? {
      EndCat(s, [a, b], Appends(b, Opened(e.scan.stored)));
    } else if e.scan.ScanRaises? {
      assert [PillarCall, ResponderCall][..1] == [PillarCall];
    }
  }

  lemma ScanTCalls(cfg: Config, s: Session, e: Env)
    requires s.stage.Scanning?
    ensures var x := End(s, ScanT(cfg, s, e)); x.calls == s.calls + ScanAndAsk(x, e)
  {
    hide ScanRunT, EmitT, Question, ScanCalls;
    assert s == s.(stage := Scanning);
    var t := ScanRunT(cfg, s, e);
    ScanRunCalls(cfg, s, e);
    EndCat(s, [s], t);
    assert End(s, [s]) == s;
    if e.scan.Scanned? {
      EmitCalls(End(s, t), e);
      EndCat(s, [s] + t, EmitT(End(s, t), e));
      assert s.calls + (ScanCalls(e.scan) + Question(End(s, t), e)) ==
             s.calls + ScanCalls(e.scan) + Question(End(s, t), e);
    } else {
      assert [s] + t + [] == [s] + t && ScanCalls(e.scan) + [] == ScanCalls(e.scan);
    }
  }

  lemma CloseTCalls(s: Session, e: Env)
    ensures var x := End(s, CloseT(s, e)); x.calls == s.calls + One(e.summary, SummaryCall) && x.roundNo == s.roundNo
  {
    assert s.calls + [] == s.calls;
  }

  lemma AfterGateCalls(cfg: Config, s: Session, forced: bool, e: Env)
    ensures var x := End(s, AfterGateT(cfg, s, forced, e)); x.calls == s.calls + LastCalls(s, x, e)
  {
    hide EmitT, CloseT, OpenBlockers, Question, One;
    var t := ReopenT(s, OpenBlockers(s.findings));
    EmitCalls(End(s, t), e);
    EndCat(s, t, EmitT(End(s, t), e));
    var b := s.(verdict := Some(ForcedPartial), stage := Closing);
    var c := s.(verdict := Some(ForcedPartial));
    CloseTCalls(s, e);
    CloseTCalls(b, e);
    CloseTCalls(c, e);
    EndCat(s, [b], CloseT(b, e));
    EndCat(s, [c], CloseT(c, e));
  }

  lemma GatedCalls(cfg: Config, s: Session, forced: bool, e: Env)
    ensures var x := End(s, GatedT(cfg, s, forced, e));
            x.calls == s.calls + (GateCalls(e.gate) + if GateAborts(e.gate) then [] else LastCalls(s, x, e))
  {
    hide AfterGateT, LastCalls;
    var t := GateT(s, forced, e);
    var y := End(s, t);
    assert y.calls == s.calls + GateCalls(e.gate) && y.roundNo == s.roundNo by {
      assert s.calls + [] == s.calls;
    }
    if GateAborts(e.gate) {
      assert t + [] == t && GateCalls(e.gate) + [] == GateCalls(e.gate);
    } else {
      EndCat(s, t, AfterGateT(cfg, y, forced, e));
      AfterGateCalls(cfg, y, forced, e);
      SameLast(s, y, End(y, AfterGateT(cfg, y, forced, e)), e);
    }
  }

  lemma SameLast(s: Session, y: Session, x: Session, e: Env)
    requires y.roundNo == s.roundNo
    ensures LastCalls(y, x, e) == LastCalls(s, x, e)
  {
  }

  lemma ChainCalls(cfg: Config, s: Session, forced: bool, e: Env)
    ensures var x := End(s, ChainT(cfg, s, forced, e)); x.calls == s.calls + CloseCalls(s, x, e)
  {
    hide GatedT, LastCalls, GateCalls;
    var t := MergeT(s, e);
    var y := End(s, t);
    assert s.calls + [] == s.calls;
    if MergeAborts(s, e) {
      assert t + [] == t && [MergeCall] + [] == [MergeCall];
    } else {
      assert y.calls == s.calls + One(e.merge, MergeCall) && y.roundNo == s.roundNo;
      EndCat(s, t, GatedT(cfg, y, forced, e));
      GatedCalls(cfg, y, forced, e);
      SameLast(s, y, End(y, GatedT(cfg, y, forced, e)), e);
    }
  }

  lemma TopicCalls(s: Session, e: Env)
    ensures End(s, TopicT(s, e)).calls == s.calls + One(e.topic, TopicCall)
  {
    assert s.calls + [] == s.calls;
  }

  lemma QaLedger(cfg: Config, s: Session, r: Reply, e: Env)
    requires s.stage.QaActive? || s.stage.QaActiveReopened?
    ensures var x := End(s, QaT(cfg, s, r, e)); x.calls == s.calls + QaCalls(s, r, e, x)
  {
    hide ScanT, ScanAndAsk, ChainT, CloseCalls, QaReplyT, ActT;
    var s0 := s.(stage := QaActive);
    assert s.calls + [] == s.calls;
    if r.supplement.Appended? {
      var t := RescanStartT(s0);
      ScanTCalls(cfg, t[1], e);
      EndCat(s0, t, ScanT(cfg, t[1], e));
      EndCat(s, [s0], RescanT(cfg, s0, e));
    } else if r.supplement.NotMaterial? {
      AnswerLedger(cfg, s, r, e);
    }
  }

  lemma AnswerLedger(cfg: Config, s: Session, r: Reply, e: Env)
    requires (s.stage.QaActive? || s.stage.QaActiveReopened?) && r.supplement.NotMaterial?
    ensures var x := End(s, QaT(cfg, s, r, e)); x.calls == s.calls + QaCalls(s, r, e, x)
  {
    hide ChainT, CloseCalls, EmitT, Question, QaT;
    var s0 := s.(stage := QaActive);
    var (t, act) := QaReplyT(cfg, s0, r.intent);
    var y := End(s0, t);
    QaEnd(cfg, s, r, e);
    QaReplyRow(cfg, s0, r.intent);
    assert s.calls + [] == s.calls;
    match act
    case EmitNext =>
      EmitCalls(y, e);
      EmitLeavesQa(y, e);
    case ProposeClose =>
    case GoForceClose =>
      ChainCalls(cfg, s0, true, e);
      SameClose(s, s0, End(s0, ChainT(cfg, s0, true, e)), e);
    case NoOp =>
  }

  lemma EmitLeavesQa(s: Session, e: Env)
    requires s.stage.QaActive?
    ensures End(s, EmitT(s, e)).stage.QaActive?
  {
  }

  lemma SameClose(s: Session, a: Session, x: Session, e: Env)
    requires a == s.(stage := a.stage)
    ensures CloseCalls(a, x, e) == CloseCalls(s, x, e)
  {
  }

  lemma PulledLedger(cfg: Config, s: Session, e: Env)
    requires s.stage.AwaitingCloseConfirmation?
    ensures var x := End(s, PullAtCloseT(cfg, s, e));
            x.calls == s.calls + if x.stage.QaActive? then Question(x, e) else []
  {
    hide EmitT, Question;
    assert s.calls + [] == s.calls;
    if Take(s.cursor.deferred, cfg.topN) != [] {
      var t := PulledT(cfg, s);
      EndCat(s, t, EmitT(End(s, t), e));
      EmitCalls(End(s, t), e);
      EmitLeavesQa(End(s, t), e);
    }
  }

  lemma ConfirmLedger(cfg: Config, s: Session, r: Reply, e: Env)
    requires s.stage.AwaitingCloseConfirmation?
    ensures var x := End(s, ConfirmT(cfg, s, r.intent, e)); x.calls == s.calls + CallsMade(s, r, e, x)
  {
    hide ChainT, CloseCalls, PullAtCloseT, Question;
    var i := r.intent;
    assert s.calls + [] == s.calls;
    if i.Accept? || i.Done? || i.PickA? {
      var a := s.(stage := Merging);
      EndCat(s, [a], ChainT(cfg, a, false, e));
      ChainCalls(cfg, a, false, e);
      SameClose(s, a, End(a, ChainT(cfg, a, false, e)), e);
    } else if i.ForceClose? {
      ChainCalls(cfg, s, true, e);
    } else if i.More? || i.PickB? {
      PulledLedger(cfg, s, e);
    }
  }

  lemma BusyLedger(cfg: Config, s: Session, r: Reply, e: Env)
    requires s.status.Active? && BusyKey(s.stage).Some? && (s.stage.Merging? ==> s.material)
    ensures var x := End(s, BusyT(cfg, s, e)); x.calls == s.calls + CallsMade(s, r, e, x)
  {
    hide ScanT, ScanAndAsk;
    assert s.calls + [] == s.calls;
    if s.stage.Scanning? {
      ScanTCalls(cfg, s, e);
    }
  }

  /** The log of model calls, exactly: what every reply adds to it if it is not cut. */
  lemma LedgerExact(cfg: Config, s: Session, r: Reply, e: Env)
    requires GateInv(cfg, s) && s.status.Active?
    ensures var x := Step(cfg, s, Event(r, e, None)); x.calls == s.calls + CallsMade(s, r, e, x)
  {
    hide QaT, ConfirmT, BusyT, ChainT, ScanT, TopicT, CloseCalls, ScanAndAsk, QaCalls;
    assert s.calls + [] == s.calls;
    match s.stage
    case AwaitingMaterialConfirm =>
      var a := s.(stage := SubjectConfirmation);
      EndCat(s, [a], TopicT(a, e));
      TopicCalls(a, e);
    case SubjectConfirmation => SubjectLedger(cfg, s, r, e);
    case QaActive => QaLedger(cfg, s, r, e);
    case QaActiveReopened => QaLedger(cfg, s, r, e);
    case AwaitingCloseConfirmation => ConfirmLedger(cfg, s, r, e);
    case Intake => ChainCalls(cfg, s, false, e);
    case _ => BusyLedger(cfg, s, r, e);
  }

  lemma SubjectLedger(cfg: Config, s: Session, r: Reply, e: Env)
    requires s.stage.SubjectConfirmation?
    ensures var x := End(s, SubjectT(cfg, s, r, e)); x.calls == s.calls + CallsMade(s, r, e, x)
  {
    hide TopicT, ScanT, ScanAndAsk;
    assert s.calls + [] == s.calls;
    if r.newMaterial {
      EndCat(s, [s], TopicT(s, e));
      TopicCalls(s, e);
    } else if r.picksSubject {
      var a := s.(stage := Scanning);
      EndCat(s, [a], ScanT(cfg, a, e));
      ScanTCalls(cfg, a, e);
    }
  }

  // ── one store per write ─────────────────────────────────

  predicate SameRow(s: Session, x: Session) {
    && x.stage == s.stage && x.status == s.status && x.roundNo == s.roundNo
    && x.failCount == s.failCount && x.verdict == s.verdict && x.material == s.material
  }

  predicate SameFiles(s: Session, x: Session) {
    x.cursor == s.cursor && x.findings == s.findings && x.asked == s.asked && x.plan == s.plan
  }

  /** The row, the cursor, the findings or the log of calls: at most one of them differs; of the log, by
      one more call. */
  predicate OneStore(s: Session, x: Session) {
    || (SameFiles(s, x) && x.calls == s.calls)
    || (SameRow(s, x) && x.calls == s.calls && x.findings == s.findings)
    || (SameRow(s, x) && x.calls == s.calls && x.cursor == s.cursor && x.asked == s.asked && x.plan == s.plan)
    || (SameRow(s, x) && SameFiles(s, x) && |x.calls| == |s.calls| + 1 && x.calls[..|s.calls|] == s.calls)
  }

  predicate Stepwise(s: Session, t: seq<Session>)
    decreases |t|
  {
    t == [] || (OneStore(s, t[0]) && Stepwise(t[0], t[1..]))
  }

  lemma {:induction false} StepwiseCat(s: Session, t: seq<Session>, u: seq<Session>)
    requires Stepwise(s, t) && Stepwise(End(s, t), u)
    ensures Stepwise(s, t + u)
    decreases |t|
  {
    hide OneStore;
    if t == [] {
      assert t + u == u;
    } else {
      assert (t + u)[0] == t[0] && (t + u)[1..] == t[1..] + u;
      assert End(t[0], t[1..]) == End(s, t);
      StepwiseCat(t[0], t[1..], u);
    }
  }

  lemma OneWrite(s: Session, a: Session)
    requires OneStore(s, a)
    ensures Stepwise(s, [a])
  {
  }

  lemma TwoWrites(s: Session, a: Session, b: Session)
    requires OneStore(s, a) && OneStore(a, b)
    ensures Stepwise(s, [a, b])
  {
    hide OneStore;
    OneWrite(a, b);
    assert [a, b][1..] == [b];
  }

  lemma ThreeWrites(s: Session, a: Session, b: Session, c: Session)
    requires OneStore(s, a) && OneStore(a, b) && OneStore(b, c)
    ensures Stepwise(s, [a, b, c])
  {
    hide OneStore;
    assert [a, b, c][1..] == [b, c];
    TwoWrites(a, b, c);
  }

  lemma {:induction false} AppendsStepwise(s: Session, fs: seq<Finding>, n: nat)
    requires n <= |fs|
    ensures Stepwise(s.(findings := s.findings + fs[..n]), Appends(s, fs)[n..])
    decreases |fs| - n
  {
    hide OneStore;
    var t := Appends(s, fs);
    if n < |fs| {
      assert t[n..][0] == t[n] && t[n..][1..] == t[n + 1..];
      SomeFindings(s, fs[..n], fs[..n + 1]);
      AppendsStepwise(s, fs, n + 1);
    }
  }

  lemma SomeFindings(s: Session, fs: seq<Finding>, gs: seq<Finding>)
    ensures OneStore(s.(findings := s.findings + fs), s.(findings := s.findings + gs))
  {
  }

  lemma FoundStepwise(cfg: Config, s: Session, found: seq<Finding>)
    ensures Stepwise(s, FoundT(cfg, s, found))
  {
    hide Prioritize, FirstCursor, Opened, Stepwise, OneStore;
    StoredStepwise(s, Opened(found));
    var ids := Prioritize(found);
    var t, b := Appends(s, Opened(found)), s.(findings := s.findings + Opened(found));
    var d := b.(cursor := FirstCursor(ids, cfg.topN), plan := ids);
    LastWrites(b, d);
    StepwiseCat(s, t, [d, d.(stage := QaActive)]);
  }

  lemma LastWrites(b: Session, d: Session)
    requires d == b.(cursor := d.cursor, plan := d.plan)
    ensures Stepwise(b, [d, d.(stage := QaActive)])
  {
    TwoWrites(b, d, d.(stage := QaActive));
  }

  lemma StoredStepwise(s: Session, fs: seq<Finding>)
    ensures Stepwise(s, Appends(s, fs)) && End(s, Appends(s, fs)) == s.(findings := s.findings + fs)
  {
    hide Stepwise;
    AppendsStepwise(s, fs, 0);
    assert s.findings + fs[..0] == s.findings && fs[..|fs|] == fs;
    assert Appends(s, fs)[0..] == Appends(s, fs);
  }

  lemma EmitStepwise(s: Session, e: Env)
    ensures Stepwise(s, EmitT(s, e))
  {
  }

  lemma ScanRunStepwise(cfg: Config, s: Session, e: Env)
    ensures Stepwise(s, ScanRunT(cfg, s, e))
  {
    hide FoundT, Appends, Opened, Stepwise;
    var a := Log(s, PillarCall);
    var b := Log(a, ResponderCall);
    TwoWrites(s, a, b);
    match e.scan
    case NoAnswer => OneWrite(s, Failing(s, Scanning));
    case OneAnswer => TwoWrites(s, a, Failing(a, Scanning));
    case TwoAnswers => ThreeWrites(s, a, b, Failing(b, Scanning));
    case ScanRaises(_) => OneWrite(s, a); NoWrite(s);
    case ScanStores(fs) =>
      StoredStepwise(b, Opened(fs));
      StepwiseCat(s, [a, b], Appends(b, Opened(fs)));
    case Scanned(found) =>
      FoundStepwise(cfg, b, found);
      StepwiseCat(s, [a, b], FoundT(cfg, b, found));
  }

  lemma NoWrite(s: Session)
    ensures Stepwise(s, [])
  {
  }

  lemma ScanStepwise(cfg: Config, s: Session, e: Env)
    ensures Stepwise(s, ScanT(cfg, s, e))
  {
    hide ScanRunT, EmitT, Stepwise;
    NoWrite(s);
    if s.stage.Scanning? || s.stage.SubjectConfirmation? {
      var s0 := s.(stage := Scanning);
      var t := ScanRunT(cfg, s0, e);
      OneWrite(s, s0);
      ScanRunStepwise(cfg, s0, e);
      StepwiseCat(s, [s0], t);
      assert End(s, [s0] + t) == End(s0, t);
      EmitStepwise(End(s0, t), e);
      NoWrite(End(s0, t));
      StepwiseCat(s, [s0] + t, if e.scan.Scanned? then EmitT(End(s0, t), e) else []);
    }
  }

  lemma DeliverStepwise(s: Session, e: Env)
    ensures Stepwise(s, DeliverT(s, e))
  {
    hide Stepwise;
    var a := Log(s, SummaryCall);
    var b := a.(stage := Closing);
    NoWrite(s);
    OneWrite(s, Failing(s, Closing));
    OneWrite(s, a);
    TwoWrites(s, a, b);
    ThreeWrites(s, a, b, b.(status := Status.Closed, stage := Stage.Closed));
    assert [a, b] + [b.(status := Status.Closed, stage := Stage.Closed)] ==
           [a, b, b.(status := Status.Closed, stage := Stage.Closed)];
    assert [a, b] + [] == [a, b];
  }

  lemma CloseStepwise(s: Session, e: Env)
    ensures Stepwise(s, CloseT(s, e))
  {
    hide DeliverT, Stepwise;
    var a := s.(stage := Closing);
    OneWrite(s, a);
    DeliverStepwise(a, e);
    StepwiseCat(s, [a], DeliverT(a, e));
  }

  lemma ReopenStepwise(cfg: Config, s: Session, e: Env)
    ensures var t := ReopenT(s, OpenBlockers(s.findings)); Stepwise(s, t + EmitT(End(s, t), e))
  {
    hide EmitT, Stepwise, ReopenT, OpenBlockers;
    var t := ReopenT(s, OpenBlockers(s.findings));
    ReopenWrites(s, OpenBlockers(s.findings));
    EmitStepwise(End(s, t), e);
    StepwiseCat(s, t, EmitT(End(s, t), e));
  }

  lemma ReopenWrites(s: Session, regressions: seq<Id>)
    ensures Stepwise(s, ReopenT(s, regressions))
  {
    hide Stepwise, Reopened;
    var t := ReopenT(s, regressions);
    TwoWrites(s, t[0], t[1]);
  }

  lemma AfterGateStepwise(cfg: Config, s: Session, forced: bool, e: Env)
    ensures Stepwise(s, AfterGateT(cfg, s, forced, e))
  {
    hide EmitT, CloseT, ReopenT, OpenBlockers, Stepwise;
    var b := s.(verdict := Some(ForcedPartial), stage := Closing);
    var c := s.(verdict := Some(ForcedPartial));
    CloseStepwise(s, e);
    CloseStepwise(b, e);
    CloseStepwise(c, e);
    OneWrite(s, b);
    OneWrite(s, c);
    StepwiseCat(s, [b], CloseT(b, e));
    StepwiseCat(s, [c], CloseT(c, e));
    ReopenStepwise(cfg, s, e);
  }

  lemma GateStepwise(s: Session, forced: bool, e: Env)
    ensures Stepwise(s, GateT(s, forced, e))
  {
    hide Stepwise;
    var a := Log(s, GateCall);
    NoWrite(s);
    OneWrite(s, Failing(s, FinalGating));
    OneWrite(s, a);
    TwoWrites(s, a, Failing(a, FinalGating));
    if e.gate.GateSays? {
      var v := GateVerdict(forced, e.gate);
      TwoWrites(s, a, a.(failCount := s.failCount + 1, verdict := Some(v)));
      TwoWrites(s, a, a.(verdict := Some(v), stage := Closing));
    }
  }

  lemma MergeStepwise(s: Session, e: Env)
    ensures Stepwise(s, MergeT(s, e))
  {
    hide Stepwise;
    var a := Log(s, MergeCall);
    NoWrite(s);
    OneWrite(s, Failing(s, Merging));
    OneWrite(s, a);
    TwoWrites(s, a, a.(stage := FinalGating));
  }

  lemma ChainStepwise(cfg: Config, s: Session, forced: bool, e: Env)
    ensures Stepwise(s, ChainT(cfg, s, forced, e))
  {
    hide MergeT, GateT, AfterGateT, Stepwise;
    var t := MergeT(s, e);
    var y := End(s, t);
    var u := GateT(y, forced, e);
    MergeStepwise(s, e);
    GateStepwise(y, forced, e);
    AfterGateStepwise(cfg, End(y, u), forced, e);
    NoWrite(End(y, u));
    NoWrite(y);
    StepwiseCat(y, u, AfterGateT(cfg, End(y, u), forced, e));
    StepwiseCat(y, u, []);
    StepwiseCat(s, t, GatedT(cfg, y, forced, e));
    StepwiseCat(s, t, []);
  }

  lemma TopicStepwise(s: Session, e: Env)
    ensures Stepwise(s, TopicT(s, e))
  {
    hide Stepwise;
    var a := Log(s, TopicCall);
    NoWrite(s);
    OneWrite(s, Failing(s, SubjectConfirmation));
    OneWrite(s, a);
    TwoWrites(s, a, a.(stage := SubjectConfirmation));
  }

  lemma QaReplyStepwise(cfg: Config, s: Session, i: Intent)
    requires s.stage.QaActive?
    ensures Stepwise(s, QaReplyT(cfg, s, i).0)
  {
    hide Stepwise, QaReplyT;
    if i.More? {
      MoreStepwise(cfg, s);
    } else if i.Done? || i.ForceClose? || s.cursor.current.None? || i.Question? {
      NoWrite(s);
      WritesNothing(cfg, s, i);
    } else if StatusFor(i).Some? {
      AnswerStepwise(cfg, s, i);
    } else {
      PassStepwise(cfg, s, i);
    }
  }

  lemma WritesNothing(cfg: Config, s: Session, i: Intent)
    requires !i.More? && (i.Done? || i.ForceClose? || s.cursor.current.None? || i.Question?)
    ensures QaReplyT(cfg, s, i).0 == []
  {
  }

  lemma MoreStepwise(cfg: Config, s: Session)
    ensures Stepwise(s, QaReplyT(cfg, s, More).0)
  {
    hide Stepwise, Advanced, Pulled, Take;
    var p := s.(cursor := Pulled(s.cursor, cfg.topN));
    OneWrite(s, p);
    TwoWrites(s, p, p.(cursor := Advanced(p.cursor)));
  }

  lemma PassStepwise(cfg: Config, s: Session, i: Intent)
    requires s.cursor.current.Some? && StatusFor(i).None?
    requires !i.More? && !i.Done? && !i.ForceClose? && !i.Question?
    ensures Stepwise(s, QaReplyT(cfg, s, i).0)
  {
    hide Stepwise, Advanced;
    var g := s.(cursor := Advanced(s.cursor), asked := s.asked + 1);
    assert QaReplyT(cfg, s, i).0 == [] + [g] == [g];
    OneWrite(s, g);
  }

  lemma AnswerStepwise(cfg: Config, s: Session, i: Intent)
    requires s.stage.QaActive? && s.cursor.current.Some? && StatusFor(i).Some?
    ensures Stepwise(s, QaReplyT(cfg, s, i).0)
  {
    hide Stepwise, Advanced, Restatus;
    var f := s.(findings := Restatus(s.findings, s.cursor.current.value, StatusFor(i).value));
    var g := f.(cursor := Advanced(f.cursor), asked := f.asked + 1);
    assert QaReplyT(cfg, s, i).0 == [f] + [g] == [f, g];
    TwoWrites(s, f, g);
  }

  lemma ActStepwise(cfg: Config, s: Session, act: Action, e: Env)
    ensures Stepwise(s, ActT(cfg, s, act, e))
  {
    hide EmitT, ChainT, Stepwise;
    EmitStepwise(s, e);
    OneWrite(s, s.(stage := AwaitingCloseConfirmation));
    ChainStepwise(cfg, s, true, e);
    NoWrite(s);
  }

  lemma QaStepwise(cfg: Config, s: Session, r: Reply, e: Env)
    requires s.stage.QaActive? || s.stage.QaActiveReopened?
    ensures Stepwise(s, QaT(cfg, s, r, e))
  {
    hide ScanT, QaReplyT, ActT, Stepwise;
    var s0 := s.(stage := QaActive);
    OneWrite(s, s0);
    if r.supplement.Appended? {
      var t := RescanStartT(s0);
      TwoWrites(s0, t[0], t[1]);
      ScanStepwise(cfg, t[1], e);
      StepwiseCat(s0, t, ScanT(cfg, t[1], e));
      StepwiseCat(s, [s0], RescanT(cfg, s0, e));
    } else if r.supplement.NotMaterial? {
      var (t, act) := QaReplyT(cfg, s0, r.intent);
      QaReplyStepwise(cfg, s0, r.intent);
      StepwiseCat(s, [s0], t);
      EndCat(s, [s0], t);
      ActStepwise(cfg, End(s0, t), act, e);
      StepwiseCat(s, [s0] + t, ActT(cfg, End(s0, t), act, e));
    }
  }

  lemma ConfirmStepwise(cfg: Config, s: Session, i: Intent, e: Env)
    ensures Stepwise(s, ConfirmT(cfg, s, i, e))
  {
    hide ChainT, EmitT, Stepwise, Advanced, Pulled;
    NoWrite(s);
    if i.Accept? || i.Done? || i.PickA? {
      var a := s.(stage := Merging);
      OneWrite(s, a);
      ChainStepwise(cfg, a, false, e);
      StepwiseCat(s, [a], ChainT(cfg, a, false, e));
    } else if i.ForceClose? {
      ChainStepwise(cfg, s, true, e);
    } else if i.More? || i.PickB? {
      var t := PulledT(cfg, s);
      TwoWrites(s, t[0], t[1]);
      EmitStepwise(End(s, t), e);
      StepwiseCat(s, t, EmitT(End(s, t), e));
    }
  }

  lemma OtherStepwise(cfg: Config, s: Session, r: Reply, e: Env)
    requires !s.stage.QaActive? && !s.stage.QaActiveReopened? && !s.stage.AwaitingCloseConfirmation?
    ensures Stepwise(s, ReplyT(cfg, s, r, e))
  {
    hide TopicT, ScanT, MergeT, GateT, DeliverT, ChainT, Stepwise;
    NoWrite(s);
    match s.stage
    case AwaitingMaterialConfirm =>
      var a := s.(stage := SubjectConfirmation);
      OneWrite(s, s.(status := Status.Cancelled, stage := Stage.Cancelled));
      OneWrite(s, a);
      TopicStepwise(a, e);
      StepwiseCat(s, [a], TopicT(a, e));
    case SubjectConfirmation =>
      var a := s.(stage := Scanning);
      OneWrite(s, s);
      TopicStepwise(s, e);
      StepwiseCat(s, [s], TopicT(s, e));
      OneWrite(s, a);
      ScanStepwise(cfg, a, e);
      StepwiseCat(s, [a], ScanT(cfg, a, e));
    case _ =>
      ScanStepwise(cfg, s, e);
      MergeStepwise(s, e);
      GateStepwise(s, false, e);
      DeliverStepwise(s, e);
      ChainStepwise(cfg, s, false, e);
  }

  /** Every write of every reply changes one store only: a cut leaves each of them as it was before a write
      or as it is after it. */
  lemma WritesAreStepwise(cfg: Config, s: Session, r: Reply, e: Env)
    ensures Stepwise(s, ReplyT(cfg, s, r, e))
  {
    hide QaT, ConfirmT, Stepwise;
    if s.stage.QaActive? || s.stage.QaActiveReopened? {
      QaStepwise(cfg, s, r, e);
    } else if s.stage.AwaitingCloseConfirmation? {
      ConfirmStepwise(cfg, s, r.intent, e);
    } else {
      OtherStepwise(cfg, s, r, e);
    }
  }

  // ── who fails a session ─────────────────────────────────

  /** The call of this stage failed terminally. */
  predicate FailedCall(st: Stage, e: Env) {
    match st
    case SubjectConfirmation => e.topic.Down?
    case Scanning => e.scan.NoAnswer? || e.scan.OneAnswer? || e.scan.TwoAnswers?
    case QaActive => e.emit.Down?
    case Merging => e.merge.Down?
    case FinalGating => e.gate.GateDown? || e.gate.GateGarbled?
    case Closing => e.summary.Down?
    case _ => false
  }

  /** A write that fails the session records the stage of the call that failed, and nothing else. */
  predicate Named(s: Session, x: Session, e: Env) {
    x.status.Failed? && !s.status.Failed? ==> FailedCall(x.stage, e) && x == Failing(s, x.stage)
  }

  predicate AllNamed(s: Session, t: seq<Session>, e: Env)
    decreases |t|
  {
    t == [] || (Named(s, t[0], e) && AllNamed(t[0], t[1..], e))
  }

  lemma {:induction false} NamedCat(s: Session, t: seq<Session>, u: seq<Session>, e: Env)
    requires AllNamed(s, t, e) && AllNamed(End(s, t), u, e)
    ensures AllNamed(s, t + u, e)
    decreases |t|
  {
    hide Named;
    if t == [] {
      assert t + u == u;
    } else {
      assert (t + u)[0] == t[0] && (t + u)[1..] == t[1..] + u;
      assert End(t[0], t[1..]) == End(s, t);
      NamedCat(t[0], t[1..], u, e);
    }
  }

  /** Writes none of which fails the session. */
  lemma {:induction false} NoneFails(s: Session, t: seq<Session>, e: Env)
    requires forall i :: 0 <= i < |t| ==> t[i].status.Failed? ==> s.status.Failed?
    requires s.status.Failed? ==> forall i :: 0 <= i < |t| - 1 ==> t[i].status.Failed?
    ensures AllNamed(s, t, e)
    decreases |t|
  {
    if t != [] {
      forall i | 0 <= i < |t[1..]| ensures t[1..][i] == t[i + 1] {
      }
      NoneFails(t[0], t[1..], e);
    }
  }

  lemma LastFails(s: Session, t: seq<Session>, x: Session, e: Env)
    requires forall i :: 0 <= i < |t| ==> (t[i].status.Failed? <==> s.status.Failed?)
    requires Named(End(s, t), x, e)
    ensures AllNamed(s, t + [x], e)
  {
    hide Named;
    NoneFails(s, t, e);
    OneNamed(End(s, t), x, e);
    NamedCat(s, t, [x], e);
  }

  lemma OneNamed(s: Session, x: Session, e: Env)
    requires Named(s, x, e)
    ensures AllNamed(s, [x], e)
  {
  }

  lemma EmitNamed(s: Session, e: Env)
    ensures AllNamed(s, EmitT(s, e), e)
  {
  }

  lemma TopicNamed(s: Session, e: Env)
    ensures AllNamed(s, TopicT(s, e), e)
  {
    hide AllNamed;
    if e.topic.Down? {
      OneNamed(s, Failing(s, SubjectConfirmation), e);
    } else {
      NoneFails(s, TopicT(s, e), e);
    }
  }

  lemma ScanRunNamed(cfg: Config, s: Session, e: Env)
    ensures AllNamed(s, ScanRunT(cfg, s, e), e)
  {
    hide AllNamed, Prioritize, FirstCursor;
    var a := Log(s, PillarCall);
    var b := Log(a, ResponderCall);
    match e.scan
    case NoAnswer => OneNamed(s, Failing(s, Scanning), e);
    case OneAnswer =>
      LastFails(s, [a], Failing(a, Scanning), e);
      assert [a] + [Failing(a, Scanning)] == [a, Failing(a, Scanning)];
    case TwoAnswers =>
      LastFails(s, [a, b], Failing(b, Scanning), e);
      assert [a, b] + [Failing(b, Scanning)] == [a, b, Failing(b, Scanning)];
    case _ => NoneFails(s, ScanRunT(cfg, s, e), e);
  }

  lemma ScanNamed(cfg: Config, s: Session, e: Env)
    ensures AllNamed(s, ScanT(cfg, s, e), e)
  {
    hide AllNamed, ScanRunT, EmitT;
    NoneFails(s, [], e);
    if s.stage.Scanning? || s.stage.SubjectConfirmation? {
      var s0 := s.(stage := Scanning);
      var t := ScanRunT(cfg, s0, e);
      NoneFails(s, [s0], e);
      ScanRunNamed(cfg, s0, e);
      NamedCat(s, [s0], t, e);
      assert End(s, [s0] + t) == End(s0, t);
      EmitNamed(End(s0, t), e);
      NoneFails(End(s0, t), [], e);
      NamedCat(s, [s0] + t, if e.scan.Scanned? then EmitT(End(s0, t), e) else [], e);
    }
  }

  lemma DeliverNamed(s: Session, e: Env)
    ensures AllNamed(s, DeliverT(s, e), e)
  {
    hide AllNamed;
    if e.summary.Down? {
      OneNamed(s, Failing(s, Closing), e);
    } else {
      NoneFails(s, DeliverT(s, e), e);
    }
  }

  lemma CloseNamed(s: Session, e: Env)
    ensures AllNamed(s, CloseT(s, e), e)
  {
    hide AllNamed, DeliverT;
    var a := s.(stage := Closing);
    NoneFails(s, [a], e);
    DeliverNamed(a, e);
    NamedCat(s, [a], DeliverT(a, e), e);
  }

  lemma AfterGateNamed(cfg: Config, s: Session, forced: bool, e: Env)
    ensures AllNamed(s, AfterGateT(cfg, s, forced, e), e)
  {
    hide AllNamed, EmitT, CloseT, Reopened, OpenBlockers;
    var b := s.(verdict := Some(ForcedPartial), stage := Closing);
    var c := s.(verdict := Some(ForcedPartial));
    CloseNamed(s, e);
    CloseNamed(b, e);
    CloseNamed(c, e);
    NoneFails(s, [b], e);
    NoneFails(s, [c], e);
    NamedCat(s, [b], CloseT(b, e), e);
    NamedCat(s, [c], CloseT(c, e), e);
    var t := ReopenT(s, OpenBlockers(s.findings));
    NoneFails(s, t, e);
    EmitNamed(End(s, t), e);
    NamedCat(s, t, EmitT(End(s, t), e), e);
  }

  lemma GateNamed(s: Session, forced: bool, e: Env)
    ensures AllNamed(s, GateT(s, forced, e), e)
  {
    hide AllNamed;
    var a := Log(s, GateCall);
    if e.gate.GateDown? {
      OneNamed(s, Failing(s, FinalGating), e);
    } else if e.gate.GateGarbled? {
      LastFails(s, [a], Failing(a, FinalGating), e);
      assert [a] + [Failing(a, FinalGating)] == [a, Failing(a, FinalGating)];
    } else {
      NoneFails(s, GateT(s, forced, e), e);
    }
  }

  lemma MergeNamed(s: Session, e: Env)
    ensures AllNamed(s, MergeT(s, e), e)
  {
    hide AllNamed;
    if s.material && e.merge.Down? {
      OneNamed(s, Failing(s, Merging), e);
    } else {
      NoneFails(s, MergeT(s, e), e);
    }
  }

  lemma ChainNamed(cfg: Config, s: Session, forced: bool, e: Env)
    ensures AllNamed(s, ChainT(cfg, s, forced, e), e)
  {
    hide AllNamed, MergeT, GateT, AfterGateT;
    var t := MergeT(s, e);
    var y := End(s, t);
    var u := GateT(y, forced, e);
    MergeNamed(s, e);
    GateNamed(y, forced, e);
    AfterGateNamed(cfg, End(y, u), forced, e);
    NoneFails(End(y, u), [], e);
    NoneFails(y, [], e);
    NamedCat(y, u, AfterGateT(cfg, End(y, u), forced, e), e);
    NamedCat(y, u, [], e);
    NamedCat(s, t, GatedT(cfg, y, forced, e), e);
    NamedCat(s, t, [], e);
  }

  lemma QaNamed(cfg: Config, s: Session, r: Reply, e: Env)
    requires s.stage.QaActive? || s.stage.QaActiveReopened?
    ensures AllNamed(s, QaT(cfg, s, r, e), e)
  {
    hide AllNamed, ScanT, EmitT, ChainT, QaReplyT;
    var s0 := s.(stage := QaActive);
    NoneFails(s, [s0], e);
    if r.supplement.Appended? {
      var t := RescanStartT(s0);
      NoneFails(s0, t, e);
      ScanNamed(cfg, t[1], e);
      NamedCat(s0, t, ScanT(cfg, t[1], e), e);
      NamedCat(s, [s0], RescanT(cfg, s0, e), e);
    } else if r.supplement.NotMaterial? {
      var (t, act) := QaReplyT(cfg, s0, r.intent);
      QaReplyRow(cfg, s0, r.intent);
      NoneFails(s0, t, e);
      NamedCat(s, [s0], t, e);
      EndCat(s, [s0], t);
      var y := End(s0, t);
      EmitNamed(y, e);
      NoneFails(y, [y.(stage := AwaitingCloseConfirmation)], e);
      ChainNamed(cfg, y, true, e);
      NoneFails(y, [], e);
      NamedCat(s, [s0] + t, ActT(cfg, y, act, e), e);
    }
  }

  lemma ConfirmNamed(cfg: Config, s: Session, i: Intent, e: Env)
    ensures AllNamed(s, ConfirmT(cfg, s, i, e), e)
  {
    hide AllNamed, ChainT, EmitT, Advanced, Pulled;
    NoneFails(s, [], e);
    if i.Accept? || i.Done? || i.PickA? {
      var a := s.(stage := Merging);
      NoneFails(s, [a], e);
      ChainNamed(cfg, a, false, e);
      NamedCat(s, [a], ChainT(cfg, a, false, e), e);
    } else if i.ForceClose? {
      ChainNamed(cfg, s, true, e);
    } else if i.More? || i.PickB? {
      var t := PulledT(cfg, s);
      NoneFails(s, t, e);
      EmitNamed(End(s, t), e);
      NamedCat(s, t, EmitT(End(s, t), e), e);
    }
  }

  lemma OtherNamed(cfg: Config, s: Session, r: Reply, e: Env)
    requires !s.stage.QaActive? && !s.stage.QaActiveReopened? && !s.stage.AwaitingCloseConfirmation?
    ensures AllNamed(s, ReplyT(cfg, s, r, e), e)
  {
    hide AllNamed, TopicT, ScanT, MergeT, GateT, DeliverT, ChainT;
    NoneFails(s, [], e);
    match s.stage
    case AwaitingMaterialConfirm =>
      var a := s.(stage := SubjectConfirmation);
      NoneFails(s, [s.(status := Status.Cancelled, stage := Stage.Cancelled)], e);
      NoneFails(s, [a], e);
      TopicNamed(a, e);
      NamedCat(s, [a], TopicT(a, e), e);
    case SubjectConfirmation =>
      var a := s.(stage := Scanning);
      NoneFails(s, [s], e);
      NoneFails(s, [a], e);
      TopicNamed(s, e);
      NamedCat(s, [s], TopicT(s, e), e);
      ScanNamed(cfg, a, e);
      NamedCat(s, [a], ScanT(cfg, a, e), e);
    case _ =>
      ScanNamed(cfg, s, e);
      MergeNamed(s, e);
      GateNamed(s, false, e);
      DeliverNamed(s, e);
      ChainNamed(cfg, s, false, e);
  }

  /** Whatever write fails a session, it does so for a call that failed terminally, and records the stage of
      that call. */
  lemma FailuresNamed(cfg: Config, s: Session, r: Reply, e: Env)
    ensures AllNamed(s, ReplyT(cfg, s, r, e), e)
  {
    hide AllNamed, QaT, ConfirmT;
    if s.stage.QaActive? || s.stage.QaActiveReopened? {
      QaNamed(cfg, s, r, e);
    } else if s.stage.AwaitingCloseConfirmation? {
      ConfirmNamed(cfg, s, r.intent, e);
    } else {
      OtherNamed(cfg, s, r, e);
    }
  }

  // ── before the review ───────────────────────────────────

  /** The gate before the review: cancelled, started, or left waiting. */
  lemma MaterialOutcome(cfg: Config, s: Session, r: Reply, e: Env)
    requires s.status.Active? && s.stage.AwaitingMaterialConfirm?
    ensures var x := Step(cfg, s, Event(r, e, None));
            match r.material
            case CancelReview => x == s.(stage := Stage.Cancelled, status := Status.Cancelled)
            case StartReview =>
              x == s.(stage := SubjectConfirmation, status := if e.topic.Down? then Status.Failed else Active,
                      calls := s.calls + One(e.topic, TopicCall))
            case OtherReply => x == s
  {
    assert s.calls + [] == s.calls;
  }

  /** At the choice of the subject: new material asks for the subject again, a chosen subject starts a scan,
      and anything else waits. */
  lemma SubjectOutcome(cfg: Config, s: Session, r: Reply, e: Env)
    requires s.status.Active? && s.stage.SubjectConfirmation?
    ensures var x := Step(cfg, s, Event(r, e, None));
            if r.newMaterial then
              x == s.(status := if e.topic.Down? then Status.Failed else Active,
                      calls := s.calls + One(e.topic, TopicCall))
            else if r.picksSubject then
              && (x.status.Failed? <==> FailedCall(Scanning, e) || (e.scan.Scanned? && ShowsStored(x) && e.emit.Down?))
              && (x.status.Failed? || x.status.Active?)
              && (x.stage.QaActive? <==> e.scan.Scanned?) && (!x.stage.QaActive? ==> x.stage.Scanning?)
            else x == s
  {
    hide ScanT;
    assert s.calls + [] == s.calls;
    if !r.newMaterial && r.picksSubject {
      var a := s.(stage := Scanning);
      EndCat(s, [a], ScanT(cfg, a, e));
      ScanOutcome(cfg, a, e);
    }
  }

  /** The question on screen is a stored finding. */
  predicate ShowsStored(x: Session) {
    x.cursor.current.Some? && x.cursor.current.value in IdsOf(x.findings)
  }

  lemma ScanOutcome(cfg: Config, s: Session, e: Env)
    requires s.status.Active? && s.stage.Scanning?
    ensures var x := End(s, ScanT(cfg, s, e));
            && (x.status.Failed? <==> FailedCall(Scanning, e) || (e.scan.Scanned? && ShowsStored(x) && e.emit.Down?))
            && (x.status.Failed? || x.status.Active?)
            && (x.stage.QaActive? <==> e.scan.Scanned?) && (!x.stage.QaActive? ==> x.stage.Scanning?)
  {
    hide ScanRunT, EmitT;
    assert s == s.(stage := Scanning);
    var t := ScanRunT(cfg, s, e);
    ScanRunRow(cfg, s, e);
    EndCat(s, [s], t);
    if e.scan.Scanned? {
      EndCat(s, [s] + t, EmitT(End(s, t), e));
      EmitRow(End(s, t), e);
    } else {
      assert [s] + t + [] == [s] + t;
    }
  }

  lemma ScanRunRow(cfg: Config, s: Session, e: Env)
    requires s.status.Active? && s.stage.Scanning?
    ensures var x := End(s, ScanRunT(cfg, s, e));
            && x.status == (if FailedCall(Scanning, e) then Status.Failed else Active)
            && x.stage == (if e.scan.Scanned? then QaActive else Scanning)
  {
    hide Prioritize, FirstCursor;
    var b := Log(Log(s, PillarCall), ResponderCall);
    if e.scan.Scanned? {
      EndCat(s, [Log(s, PillarCall), b], FoundT(cfg, b, e.scan.found));
    } else if e.scan.ScanStores? {
      EndCat(s, [Log(s, PillarCall), b], Appends(b, Opened(e.scan.stored)));
      StoredEnd(b, Opened(e.scan.stored));
    }
  }

  lemma EmitRow(s: Session, e: Env)
    requires s.status.Active? && s.stage.QaActive?
    ensures var x := End(s, EmitT(s, e));
            && (x.status.Failed? <==> ShowsStored(s) && e.emit.Down?) && (x.status.Failed? || x.status.Active?)
            && x.stage.QaActive? && x.cursor == s.cursor && x.findings == s.findings
  {
  }

  // ── what a scan stores, and the round ───────────────────

  /** A scan that is not cut adds its findings as it found them, but open, also if it raises after that; one
      that fails earlier adds none. */
  lemma ScanStoresFound(cfg: Config, s: Session, e: Env)
    requires s.stage.Scanning?
    ensures var x := End(s, ScanT(cfg, s, e));
            var found := if e.scan.Scanned? then e.scan.found else if e.scan.ScanStores? then e.scan.stored else [];
            && x.roundNo == s.roundNo
            && |x.findings| == |s.findings| + |found| && x.findings[..|s.findings|] == s.findings
            && (forall i :: 0 <= i < |found| ==>
                  var f := x.findings[|s.findings| + i];
                  && f.id == found[i].id && f.pillar == found[i].pillar && f.severity == found[i].severity
                  && f.priority == found[i].priority && f.status.Open?)
  {
    hide ScanRunT, EmitT;
    assert s == s.(stage := Scanning);
    var t := ScanRunT(cfg, s, e);
    ScanRunFinds(cfg, s, e);
    EndCat(s, [s], t);
    if e.scan.Scanned? {
      EndCat(s, [s] + t, EmitT(End(s, t), e));
      EmitCalls(End(s, t), e);
    } else {
      assert [s] + t + [] == [s] + t;
    }
  }

  lemma ScanRunFinds(cfg: Config, s: Session, e: Env)
    ensures var x := End(s, ScanRunT(cfg, s, e));
            var found := if e.scan.Scanned? then e.scan.found else if e.scan.ScanStores? then e.scan.stored else [];
            x.findings == s.findings + Opened(found) && x.roundNo == s.roundNo
  {
    hide Prioritize, FirstCursor;
    var a := Log(s, PillarCall);
    var b := Log(a, ResponderCall);
    assert s.findings + Opened([]) == s.findings;
    if e.scan.Scanned? {
      EndCat(s, [a, b], FoundT(cfg, b, e.scan.found));
    } else if e.scan.ScanStores? {
      EndCat(s, [a, b], Appends(b, Opened(e.scan.stored)));
      StoredStepwise(b, Opened(e.scan.stored));
    }
  }

  /** New material in Q&A starts a new round with nothing answered, and what the scan finds is added to the
      findings. */
  lemma RescanOutcome(cfg: Config, s: Session, r: Reply, e: Env)
    requires s.status.Active? && (s.stage.QaActive? || s.stage.QaActiveReopened?) && r.supplement.Appended?
    ensures var x := Step(cfg, s, Event(r, e, None));
            && x.roundNo == s.roundNo + 1 && s.findings <= x.findings && x.cursor.done == []
            && x.verdict == s.verdict && x.failCount == s.failCount
            && (e.scan.Scanned? ==> x.cursor == FirstCursor(Prioritize(e.scan.found), cfg.topN))
            && (!e.scan.Scanned? ==> x.cursor == EMPTY_CURSOR)
  {
    hide ScanT, FirstCursor, Prioritize;
    var s0 := s.(stage := QaActive);
    var t := RescanStartT(s0);
    ScanStoresFound(cfg, t[1], e);
    ScanCursor(cfg, t[1], e);
    var x := End(t[1], ScanT(cfg, t[1], e));
    assert s.findings == x.findings[..|s.findings|] <= x.findings;
    EndCat(s0, t, ScanT(cfg, t[1], e));
    EndCat(s, [s0], RescanT(cfg, s0, e));
  }

  lemma ScanCursor(cfg: Config, s: Session, e: Env)
    requires s.stage.Scanning?
    ensures var x := End(s, ScanT(cfg, s, e));
            && (e.scan.Scanned? ==> x.cursor == FirstCursor(Prioritize(e.scan.found), cfg.topN) && x.cursor.done == [])
            && (!e.scan.Scanned? ==> x.cursor == s.cursor)
            && x.verdict == s.verdict && x.failCount == s.failCount
  {
    hide ScanRunT, EmitT, Prioritize;
    assert s == s.(stage := Scanning);
    var t := ScanRunT(cfg, s, e);
    ScanRunCursor(cfg, s, e);
    EndCat(s, [s], t);
    if e.scan.Scanned? {
      EndCat(s, [s] + t, EmitT(End(s, t), e));
      EmitCalls(End(s, t), e);
      EmitKeepsVerdict(End(s, t), e);
    } else {
      assert [s] + t + [] == [s] + t;
    }
  }

  lemma EmitKeepsVerdict(s: Session, e: Env)
    ensures var x := End(s, EmitT(s, e)); x.verdict == s.verdict && x.failCount == s.failCount
  {
  }

  lemma ScanRunCursor(cfg: Config, s: Session, e: Env)
    ensures var x := End(s, ScanRunT(cfg, s, e));
            && x.cursor == (if e.scan.Scanned? then FirstCursor(Prioritize(e.scan.found), cfg.topN) else s.cursor)
            && x.verdict == s.verdict && x.failCount == s.failCount
  {
    hide Prioritize, FirstCursor;
    var a := Log(s, PillarCall);
    var b := Log(a, ResponderCall);
    if e.scan.Scanned? {
      EndCat(s, [a, b], FoundT(cfg, b, e.scan.found));
    } else if e.scan.ScanStores? {
      EndCat(s, [a, b], Appends(b, Opened(e.scan.stored)));
      StoredStepwise(b, Opened(e.scan.stored));
    }
  }
}
