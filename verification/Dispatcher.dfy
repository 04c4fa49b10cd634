/** The handlers of review_agent/core/dispatcher.py and the pipeline steps they call, run on the
    stored fields of one session. Every storage write appends the resulting session value to the
    ghost list `writes`; each method is proved to write exactly its trace. Where an exception other
    than a terminal failure of the model leaves a method, the method returns `raised`. */
module Dispatching {
  import opened Models
  import opened Scan
  import opened Protocol

  /** Two traces written one after the other. */
  lemma Joined(s: Session, w: seq<Session>, t: seq<Session>, u: seq<Session>)
    ensures End(End(s, t), u) == End(s, t + u)
    ensures w + t + u == w + (t + u)
  {
    EndCat(s, t, u);
  }

  class Dispatcher {
    const cfg: Config
    // the sessions row
    var stage: Stage
    var status: Status
    var roundNo: int
    var failCount: nat
    var verdict: Option<Verdict>
    // normalized.md, cursor.json, annotations.jsonl and the llm_calls table
    var material: bool
    var cursorFile: CursorData
    var annotations: seq<Finding>
    var llmCalls: seq<Call>
    // history
    ghost var asked: nat
    ghost var plan: seq<Id>
    ghost var writes: seq<Session>

    /** `create_session`. */
    constructor (cfg: Config)
      ensures this.cfg == cfg && State() == NEW_SESSION && writes == [NEW_SESSION]
    {
      this.cfg := cfg;
      stage, status, roundNo, failCount, verdict := Intake, Active, 1, 0, None;
      material, cursorFile, annotations, llmCalls := false, EMPTY_CURSOR, [], [];
      asked, plan, writes := 0, [], [NEW_SESSION];
    }

    ghost function State(): Session
      reads this
    {
      Session(stage, status, roundNo, failCount, verdict, material, cursorFile, annotations, llmCalls, asked, plan)
    }

    /** Since the old state, exactly the writes of `t` were made. */
    twostate predicate Wrote(t: seq<Session>)
      reads this
    {
      State() == End(old(State()), t) && writes == old(writes) + t
    }

    // ── storage ─────────────────────────────────────────────

    method UpdateStage(st: Stage)
      modifies this
      ensures Wrote([old(State()).(stage := st)])
    {
      stage := st;
      writes := writes + [State()];
    }

    method UpdateStageRound(st: Stage, round: int)
      modifies this
      ensures Wrote([old(State()).(stage := st, roundNo := round)])
    {
      stage, roundNo := st, round;
      writes := writes + [State()];
    }

    method UpdateStatus(st: Stage, su: Status)
      modifies this
      ensures Wrote([old(State()).(stage := st, status := su)])
    {
      stage, status := st, su;
      writes := writes + [State()];
    }

    method UpdateVerdict(v: Verdict)
      modifies this
      ensures Wrote([old(State()).(verdict := Some(v))])
    {
      verdict := Some(v);
      writes := writes + [State()];
    }

    method UpdateVerdictStage(v: Verdict, st: Stage)
      modifies this
      ensures Wrote([old(State()).(verdict := Some(v), stage := st)])
    {
      verdict, stage := Some(v), st;
      writes := writes + [State()];
    }

    method UpdateFailVerdict(fails: nat, v: Verdict)
      modifies this
      ensures Wrote([old(State()).(failCount := fails, verdict := Some(v))])
    {
      failCount, verdict := fails, Some(v);
      writes := writes + [State()];
    }

    /** `passed` counts the questions this cursor has moved past, `newPlan` the list it starts. */
    method SaveCursor(c: CursorData, ghost passed: nat, ghost newPlan: seq<Id>)
      modifies this
      ensures Wrote([old(State()).(cursor := c, asked := old(asked) + passed, plan := newPlan)])
    {
      cursorFile := c;
      asked, plan := asked + passed, newPlan;
      writes := writes + [State()];
    }

    method LogLlmCall(c: Call)
      modifies this
      ensures Wrote([Log(old(State()), c)])
    {
      llmCalls := llmCalls + [c];
      writes := writes + [State()];
    }

    method AppendFinding(f: Finding)
      modifies this
      ensures Wrote([old(State()).(findings := old(annotations) + [f])])
    {
      annotations := annotations + [f];
      writes := writes + [State()];
    }

    /** `update_finding_status`: patch every row with the id, then rewrite the file. */
    method UpdateFindingStatus(id: Id, st: FindingStatus)
      modifies this
      ensures Wrote([old(State()).(findings := Restatus(old(annotations), id, st))])
    {
      var rows := annotations;
      var i := 0;
      while i < |rows|
        invariant 0 <= i <= |rows| == |annotations|
        invariant forall k :: 0 <= k < i ==> rows[k] == Restatus(annotations, id, st)[k]
        invariant forall k :: i <= k < |rows| ==> rows[k] == annotations[k]
      {
        if rows[i].id == id {
          rows := rows[i := rows[i].(status := st)];
        }
        i := i + 1;
      }
      assert rows == Restatus(annotations, id, st);
      annotations := rows;
      writes := writes + [State()];
    }

    method FailSession(at: Stage)
      modifies this
      ensures Wrote([Failing(old(State()), at)])
    {
      UpdateStatus(at, Status.Failed);
    }

    // ── pipeline/scan.py ────────────────────────────────────

    method AppendFindings(fs: seq<Finding>)
      modifies this
      ensures Wrote(Appends(old(State()), fs))
      ensures State() == old(State()).(findings := old(annotations) + fs)
    {
      ghost var s, w, t := State(), writes, Appends(State(), fs);
      for k := 0 to |fs|
        invariant State() == s.(findings := s.findings + fs[..k])
        invariant writes == w + t[..k]
      {
        AppendFinding(fs[k]);
        assert s.findings + fs[..k] + [fs[k]] == s.findings + fs[..k + 1];
        assert t[..k + 1] == t[..k] + [t[k]];
      }
      assert fs[..|fs|] == fs && t[..|fs|] == t;
      assert s.findings + [] == s.findings;
    }

    method StoreFindings(found: seq<Finding>)
      modifies this
      ensures Wrote(FoundT(cfg, old(State()), found))
    {
      AppendFindings(Opened(found));
      var ids := Prioritize(found);
      var cursor := new Cursor.FromDict(EMPTY_CURSOR);
      cursor.pending := Take(ids, cfg.topN);
      cursor.deferred := Drop(ids, cfg.topN);
      if cursor.pending != [] {
        cursor.current, cursor.pending := Some(cursor.pending[0]), cursor.pending[1..];
      }
      SaveCursor(cursor.ToDict(), 0, ids);
      UpdateStage(QaActive);
    }

    /** `scan.run` with its terminal failures handled as in `_do_scan`; `ok` means Q&A is open, and
        otherwise it failed terminally or raised. */
    method ScanRun(e: Env) returns (ok: bool)
      modifies this
      ensures Wrote(ScanRunT(cfg, old(State()), e))
      ensures ok == e.scan.Scanned?
    {
      ok := false;
      if e.scan.NoAnswer? {
        FailSession(Scanning);
        return;
      }
      if e.scan.ScanRaises? && e.scan.calls == 0 {
        return;
      }
      ghost var s, w := State(), writes;
      LogLlmCall(PillarCall);
      if e.scan.OneAnswer? {
        FailSession(Scanning);
        return;
      }
      if e.scan.ScanRaises? && e.scan.calls == 1 {
        return;
      }
      ghost var a := State();
      LogLlmCall(ResponderCall);
      if e.scan.TwoAnswers? {
        FailSession(Scanning);
        return;
      }
      ghost var b := State();
      assert writes == w + [a, b];
      if e.scan.ScanRaises? {
        return;
      }
      if e.scan.ScanStores? {
        AppendFindings(Opened(e.scan.stored));
        Joined(s, w, [a, b], Appends(b, Opened(e.scan.stored)));
        return;
      }
      StoreFindings(e.scan.found);
      Joined(s, w, [a, b], FoundT(cfg, b, e.scan.found));
      ok := true;
    }

    method DoScan(e: Env)
      modifies this
      ensures Wrote(ScanT(cfg, old(State()), e))
    {
      if !stage.Scanning? && !stage.SubjectConfirmation? {
        return;
      }
      ghost var s, w := State(), writes;
      UpdateStage(Scanning);
      ghost var s0 := State();
      var ok := ScanRun(e);
      ghost var x, t := State(), ScanRunT(cfg, s0, e);
      Joined(s, w, [s0], t);
      if ok {
        EmitNextFinding(e);
        Joined(s, w, [s0] + t, EmitT(x, e));
      }
    }

    // ── pipeline/qa_loop.py ─────────────────────────────────

    /** `_emit_next_finding`; the model is asked only if the cursor names a stored finding. */
    method EmitNextFinding(e: Env)
      modifies this
      ensures Wrote(EmitT(old(State()), e))
    {
      var cursor := new Cursor.FromDict(cursorFile);
      if cursor.current.None? {
        return;
      }
      if cursor.current.value !in IdsOf(annotations) {
        return;
      }
      match e.emit
      case Down => FailSession(QaActive);
      case Raises =>
      case _ => LogLlmCall(EmitCall);
    }

    method HandleMore() returns (act: Action)
      modifies this
      ensures Wrote(QaReplyT(cfg, old(State()), More).0)
      ensures act == QaReplyT(cfg, old(State()), More).1
    {
      var cursor := new Cursor.FromDict(cursorFile);
      var moved := cursor.PullDeferred(cfg.topN);
      SaveCursor(cursor.ToDict(), 0, plan);
      if moved == 0 {
        return ProposeClose;
      }
      if cursor.current.None? {
        var _ := cursor.Advance();
        SaveCursor(cursor.ToDict(), 0, plan);
      }
      return EmitNext;
    }

    method MarkAnswered(id: Id, i: Intent)
      modifies this
      ensures Wrote(if StatusFor(i).Some?
                    then [old(State()).(findings := Restatus(old(annotations), id, StatusFor(i).value))] else [])
    {
      if i.Accept? {
        UpdateFindingStatus(id, Accepted);
      } else if i.Reject? {
        UpdateFindingStatus(id, Rejected);
      } else if i.Modify? {
        UpdateFindingStatus(id, Modified);
      }
    }

    /** `handle_reply`. */
    method HandleReply(i: Intent) returns (act: Action)
      modifies this
      ensures Wrote(QaReplyT(cfg, old(State()), i).0)
      ensures act == QaReplyT(cfg, old(State()), i).1
    {
      if i.More? {
        act := HandleMore();
        return;
      }
      if i.Done? {
        return ProposeClose;
      }
      if i.ForceClose? {
        return GoForceClose;
      }
      var cursor := new Cursor.FromDict(cursorFile);
      if cursor.current.None? {
        return ProposeClose;
      }
      if i.Question? {
        return NoOp;
      }
      MarkAnswered(cursor.current.value, i);
      var _ := cursor.Advance();
      SaveCursor(cursor.ToDict(), 1, plan);
      if cursor.current.None? && cursor.pending == [] {
        return ProposeClose;
      }
      return EmitNext;
    }

    method TransitionAfterFinalGateFail(regressions: seq<Id>)
      modifies this
      ensures Wrote(ReopenT(old(State()), regressions))
    {
      var cursor := new Cursor.FromDict(cursorFile);
      cursor.rescan := true;
      cursor.pending := regressions + cursor.pending;
      if cursor.current.None? {
        var _ := cursor.Advance();
      }
      SaveCursor(cursor.ToDict(), 0, plan);
      UpdateStageRound(QaActiveReopened, roundNo + 1);
    }

    // ── merge, gate, delivery ───────────────────────────────

    method DoMerge(e: Env) returns (raised: bool)
      modifies this
      ensures Wrote(MergeT(old(State()), e))
      ensures raised == MergeAborts(old(State()), e)
      ensures material == old(material)
    {
      if !material {
        return true;
      }
      match e.merge
      case Down =>
        FailSession(Merging);
        raised := false;
      case Raises =>
        raised := true;
      case Breaks =>
        LogLlmCall(MergeCall);
        raised := true;
      case Fine =>
        LogLlmCall(MergeCall);
        UpdateStage(FinalGating);
        raised := false;
    }

    method DoFinalGate(forced: bool, e: Env) returns (raised: bool)
      modifies this
      ensures Wrote(GateT(old(State()), forced, e))
      ensures raised == GateAborts(e.gate)
    {
      raised := false;
      match e.gate
      case GateDown => FailSession(FinalGating);
      case GateGarbled =>
        LogLlmCall(GateCall);
        FailSession(FinalGating);
      case GateRaises => raised := true;
      case GateBreaks =>
        LogLlmCall(GateCall);
        raised := true;
      case GateSays(_, _, _) =>
        LogLlmCall(GateCall);
        var v := GateVerdict(forced, e.gate);
        if v.Fail? {
          UpdateFailVerdict(failCount + 1, v);
        } else {
          UpdateVerdictStage(v, Closing);
        }
    }

    method DoBuildAndDeliver(e: Env)
      modifies this
      ensures Wrote(DeliverT(old(State()), e))
    {
      match e.summary
      case Down => FailSession(Closing);
      case Raises =>
      case Breaks => LogLlmCall(SummaryCall);
      case Fine =>
        LogLlmCall(SummaryCall);
        UpdateStage(Closing);
        if e.delivered {
          UpdateStatus(Stage.Closed, Status.Closed);
        }
    }

    /** The tail of the close chain. */
    method Close(e: Env)
      modifies this
      ensures Wrote(CloseT(old(State()), e))
    {
      UpdateStage(Closing);
      DoBuildAndDeliver(e);
    }

    method FollowGate(forced: bool, e: Env)
      modifies this
      ensures Wrote(AfterGateT(cfg, old(State()), forced, e))
    {
      ghost var s, w := State(), writes;
      if verdict == Some(Fail) && !forced {
        var regressions := OpenBlockers(annotations);
        if regressions == [] {
          UpdateVerdictStage(ForcedPartial, Closing);
        } else if failCount < cfg.maxFails {
          TransitionAfterFinalGateFail(regressions);
          ghost var x := State();
          EmitNextFinding(e);
          Joined(s, w, ReopenT(s, regressions), EmitT(x, e));
          return;
        } else {
          UpdateVerdict(ForcedPartial);
        }
      }
      ghost var x, t := State(), writes[|w|..];
      Close(e);
      Joined(s, w, t, CloseT(x, e));
    }

    method GateAndFollow(forced: bool, e: Env)
      modifies this
      ensures Wrote(GatedT(cfg, old(State()), forced, e))
    {
      ghost var s, w := State(), writes;
      var raised := DoFinalGate(forced, e);
      if raised {
        return;
      }
      ghost var x, t := State(), GateT(s, forced, e);
      FollowGate(forced, e);
      Joined(s, w, t, AfterGateT(cfg, x, forced, e));
    }

    method EnqueueCloseChain(forced: bool, e: Env)
      modifies this
      ensures Wrote(ChainT(cfg, old(State()), forced, e))
    {
      ghost var s, w := State(), writes;
      var raised := DoMerge(e);
      if raised {
        return;
      }
      ghost var x, t := State(), MergeT(s, e);
      GateAndFollow(forced, e);
      Joined(s, w, t, GatedT(cfg, x, forced, e));
    }

    // ── routing ─────────────────────────────────────────────

    method DoConfirmTopic(e: Env)
      modifies this
      ensures Wrote(TopicT(old(State()), e))
    {
      match e.topic
      case Down => FailSession(SubjectConfirmation);
      case Raises =>
      case Breaks => LogLlmCall(TopicCall);
      case Fine =>
        LogLlmCall(TopicCall);
        UpdateStage(SubjectConfirmation);
    }

    method HandleAwaitingMaterialConfirm(r: Reply, e: Env)
      modifies this
      ensures Wrote(MaterialT(old(State()), r, e))
    {
      match r.material
      case CancelReview => UpdateStatus(Stage.Cancelled, Status.Cancelled);
      case StartReview =>
        UpdateStage(SubjectConfirmation);
        DoConfirmTopic(e);
      case OtherReply =>
    }

    method HandleSubjectConfirmation(r: Reply, e: Env)
      requires stage.SubjectConfirmation?
      modifies this
      ensures Wrote(SubjectT(cfg, old(State()), r, e))
    {
      if r.newMaterial {
        UpdateStage(SubjectConfirmation);
        DoConfirmTopic(e);
      } else if r.picksSubject {
        ghost var s, w := State(), writes;
        UpdateStage(Scanning);
        ghost var a := State();
        DoScan(e);
        Joined(s, w, [a], ScanT(cfg, a, e));
      }
    }

    method KickoffRescanAfterSupplement(e: Env)
      modifies this
      ensures Wrote(RescanT(cfg, old(State()), e))
    {
      ghost var s, w := State(), writes;
      SaveCursor(EMPTY_CURSOR, 0, plan);
      UpdateStageRound(Scanning, roundNo + 1);
      ghost var x := State();
      assert writes == w + RescanStartT(s) && x == End(s, RescanStartT(s));
      DoScan(e);
      Joined(s, w, RescanStartT(s), ScanT(cfg, x, e));
    }

    method HandleQa(r: Reply, e: Env)
      modifies this
      ensures Wrote(QaT(cfg, old(State()), r, e))
    {
      ghost var s, w := State(), writes;
      UpdateStage(QaActive);
      ghost var s0 := State();
      if r.supplement.Unreadable? {
        return;
      }
      if r.supplement.Appended? {
        KickoffRescanAfterSupplement(e);
        Joined(s, w, [s0], RescanT(cfg, s0, e));
        return;
      }
      var act := HandleReply(r.intent);
      ghost var s1, t := State(), QaReplyT(cfg, s0, r.intent).0;
      Act(act, e);
      Joined(s, w, [s0], t);
      Joined(s, w, [s0] + t, ActT(cfg, s1, act, e));
    }

    /** What follows the outcome of `handle_reply`. */
    method Act(act: Action, e: Env)
      modifies this
      ensures Wrote(ActT(cfg, old(State()), act, e))
    {
      match act
      case EmitNext => EmitNextFinding(e);
      case ProposeClose => UpdateStage(AwaitingCloseConfirmation);
      case GoForceClose => EnqueueCloseChain(true, e);
      case NoOp =>
    }

    /** Pull the next deferred findings; `false` if there was nothing to pull. */
    method PullBackToQa() returns (pulled: bool)
      modifies this
      ensures pulled <==> Take(old(cursorFile).deferred, cfg.topN) != []
      ensures Wrote(if pulled then PulledT(cfg, old(State())) else [])
    {
      hide Pulled, Advanced, Take;
      PulledMoves(cursorFile, cfg.topN);
      var cursor := new Cursor.FromDict(cursorFile);
      var moved := cursor.PullDeferred(cfg.topN);
      if moved == 0 {
        return false;
      }
      ghost var passed := if cursor.current.Some? then 1 else 0;
      var _ := cursor.Advance();
      SaveCursor(cursor.ToDict(), passed, plan);
      UpdateStage(QaActive);
      return true;
    }

    method PullAtClose(e: Env)
      modifies this
      ensures Wrote(PullAtCloseT(cfg, old(State()), e))
    {
      ghost var s, w := State(), writes;
      var pulled := PullBackToQa();
      if pulled {
        ghost var x := State();
        EmitNextFinding(e);
        Joined(s, w, PulledT(cfg, s), EmitT(x, e));
      }
    }

    method HandleCloseConfirmation(i: Intent, e: Env)
      modifies this
      ensures Wrote(ConfirmT(cfg, old(State()), i, e))
    {
      if i.Accept? || i.Done? || i.PickA? {
        ghost var s, w := State(), writes;
        UpdateStage(Merging);
        ghost var a := State();
        EnqueueCloseChain(false, e);
        Joined(s, w, [a], ChainT(cfg, a, false, e));
      } else if i.More? || i.PickB? {
        PullAtClose(e);
      } else if i.ForceClose? {
        EnqueueCloseChain(true, e);
      }
    }

    method HandleBusy(e: Env)
      requires BusyKey(stage).Some?
      modifies this
      ensures Wrote(BusyT(cfg, old(State()), e))
    {
      if BusyKey(stage).value !in llmCalls {
        if stage.Scanning? {
          DoScan(e);
        } else if stage.Merging? {
          var _ := DoMerge(e);
        } else if stage.FinalGating? {
          var _ := DoFinalGate(false, e);
        } else {
          DoBuildAndDeliver(e);
        }
      }
    }

    /** `_handle_requester_in_session`. */
    method HandleRequesterInSession(r: Reply, e: Env)
      modifies this
      ensures Wrote(ReplyT(cfg, old(State()), r, e))
    {
      if stage.AwaitingMaterialConfirm? {
        HandleAwaitingMaterialConfirm(r, e);
      } else if stage.SubjectConfirmation? {
        HandleSubjectConfirmation(r, e);
      } else if stage.QaActive? || stage.QaActiveReopened? {
        HandleQa(r, e);
      } else if stage.AwaitingCloseConfirmation? {
        HandleCloseConfirmation(r.intent, e);
      } else if BusyKey(stage).Some? {
        HandleBusy(e);
      } else if r.intent.Accept? || r.intent.Done? {
        EnqueueCloseChain(false, e);
      }
    }
  }
}
