/** After exactly which writes of which reply a session is out of reach: where a cut leaves it so, and
    hence which runs do, cuts included. */
module WedgeWrites {
  import opened Models
  import opened Scan
  import opened Protocol
  import opened GateSafety
  import opened Wedges

  // ── which writes ────────────────────────────────────────

  /** The j-th write of a scan: its call is logged, and it is neither failed nor through. */
  predicate ScanAt(s: Session, e: Env, j: nat) {
    if j == 0 then PillarCall in s.calls
    else match e.scan
      case NoAnswer => false
      case OneAnswer => j == 1
      case TwoAnswers => j <= 2
      case ScanRaises(_) => true
      case ScanStores(_) => true
      case Scanned(found) => j < 4 + |found|
  }

  /** Of a merge that was begun in MERGING or before. */
  predicate MergeAt(s: Session, e: Env, j: nat) {
    && (e.merge.Breaks? || e.merge.Fine?)
    && (if j == 0 then s.stage.Merging? else GateCall in s.calls)
  }

  /** Of a gate: its call is logged, or it has failed. */
  predicate GateAt(forced: bool, g: GateAnswer, j: nat) {
    match g
    case GateDown => false
    case GateGarbled => j == 0
    case GateRaises => false
    case GateBreaks => j == 0
    case GateSays(_, _, _) => j == 0 || GateVerdict(forced, g).Fail?
  }

  predicate DeliverAt(e: Env, j: nat) {
    (e.summary.Breaks? && j == 0) || (e.summary.Fine? && j <= 1)
  }

  predicate CloseAt(e: Env, j: nat) { j > 0 && DeliverAt(e, j - 1) }

  /** Of what follows a gate that answered: a failed one is still in FINAL_GATING at the first write. */
  predicate AfterGateAt(cfg: Config, failed: bool, forced: bool, blockers: bool, fails: nat, e: Env, j: nat) {
    if !failed || forced then CloseAt(e, j)
    else if !blockers then j > 0 && CloseAt(e, j - 1)
    else if fails < cfg.maxFails then j == 0
    else j == 0 || CloseAt(e, j - 1)
  }

  predicate GatedAt(cfg: Config, s: Session, forced: bool, e: Env, j: nat) {
    if j < 2 then GateAt(forced, e.gate, j)
    else
      && e.gate.GateSays?
      && AfterGateAt(cfg, GateVerdict(forced, e.gate).Fail?, forced, OpenBlockers(s.findings) != [],
                     s.failCount + 1, e, j - 2)
  }

  predicate ChainAt(cfg: Config, s: Session, forced: bool, e: Env, j: nat) {
    if j < 2 then MergeAt(s, e, j) else e.merge.Fine? && GatedAt(cfg, s, forced, e, j - 2)
  }

  predicate QaAt(cfg: Config, s: Session, r: Reply, e: Env, k: nat) {
    if r.supplement.Appended? then (k == 2 && PillarCall in s.calls) || (k >= 3 && ScanAt(s, e, k - 3))
    else r.supplement.NotMaterial? && r.intent.ForceClose? && k > 0 && ChainAt(cfg, s, true, e, k - 1)
  }

  predicate BusyAt(s: Session, e: Env, k: nat) {
    match s.stage
    case Scanning => ScanAt(s, e, k)
    case Merging => MergeAt(s, e, k)
    case FinalGating => GateAt(false, e.gate, k)
    case Closing => DeliverAt(e, k)
    case _ => false
  }

  /** The k-th write of a reply. */
  predicate WedgesAt(cfg: Config, s: Session, r: Reply, e: Env, k: nat) {
    match s.stage
    case SubjectConfirmation =>
      && !r.newMaterial && r.picksSubject
      && (if k == 0 then PillarCall in s.calls else ScanAt(s, e, k - 1))
    case QaActive => QaAt(cfg, s, r, e, k)
    case QaActiveReopened => QaAt(cfg, s, r, e, k)
    case AwaitingCloseConfirmation =>
      if r.intent.ForceClose? then ChainAt(cfg, s, true, e, k)
      else && (r.intent.Accept? || r.intent.Done? || r.intent.PickA?)
           && (if k == 0 then MergeCall in s.calls else ChainAt(cfg, s.(stage := Merging), false, e, k - 1))
    case Intake => (r.intent.Accept? || r.intent.Done?) && ChainAt(cfg, s, false, e, k)
    case _ => BusyAt(s, e, k)
  }

  // ── handler by handler ──────────────────────────────────

  lemma FoundWedged(cfg: Config, s: Session, found: seq<Finding>, j: nat)
    requires s.status.Active? && s.stage.Scanning? && PillarCall in s.calls && j < |FoundT(cfg, s, found)|
    ensures Wedged(FoundT(cfg, s, found)[j]) <==> j <= |found|
    ensures |FoundT(cfg, s, found)| == |found| + 2 && !BusyKey(End(s, FoundT(cfg, s, found)).stage).Some?
    ensures End(s, FoundT(cfg, s, found)).stage.QaActive?
  {
    hide Prioritize, FirstCursor;
  }

  lemma EmitNotWedged(s: Session, e: Env)
    requires s.stage.QaActive? || s.stage.QaActiveReopened?
    ensures forall i :: 0 <= i < |EmitT(s, e)| ==> !Wedged(EmitT(s, e)[i])
  {
  }

  lemma ScanRunAt(cfg: Config, s: Session, e: Env, j: nat)
    requires s.status.Active? && s.stage.Scanning? && j < |ScanRunT(cfg, s, e)|
    ensures Wedged(ScanRunT(cfg, s, e)[j]) <==> ScanAt(s, e, j + 1)
    ensures e.scan.Scanned? ==>
              |ScanRunT(cfg, s, e)| == 4 + |e.scan.found| && End(s, ScanRunT(cfg, s, e)).stage.QaActive?
  {
    var b := Log(Log(s, PillarCall), ResponderCall);
    if e.scan.Scanned? {
      FoundWedged(cfg, b, e.scan.found, if j >= 2 then j - 2 else 0);
    }
  }

  lemma ScanTAt(cfg: Config, s: Session, e: Env, j: nat)
    requires s.status.Active? && s.stage.Scanning? && j < |ScanT(cfg, s, e)|
    ensures Wedged(ScanT(cfg, s, e)[j]) <==> ScanAt(s, e, j)
  {
    var t := ScanRunT(cfg, s, e);
    assert s == s.(stage := Scanning);
    var u := if e.scan.Scanned? then EmitT(End(s, t), e) else [];
    assert ScanT(cfg, s, e) == [s] + t + u;
    if 0 < j <= |t| {
      ScanRunAt(cfg, s, e, j - 1);
    } else if j > |t| {
      ScannedWhole(cfg, s, e);
      EmitNotWedged(End(s, t), e);
      assert ([s] + t + u)[j] == u[j - 1 - |t|];
    }
  }

  lemma ScannedWhole(cfg: Config, s: Session, e: Env)
    requires s.status.Active? && s.stage.Scanning? && e.scan.Scanned?
    ensures |ScanRunT(cfg, s, e)| == 4 + |e.scan.found| && End(s, ScanRunT(cfg, s, e)).stage.QaActive?
  {
    FoundWedged(cfg, Log(Log(s, PillarCall), ResponderCall), e.scan.found, 0);
  }

  lemma MergeTAt(s: Session, e: Env, j: nat)
    requires s.status.Active? && s.material && j < |MergeT(s, e)|
    requires s.stage.Merging? || !BusyKey(s.stage).Some?
    ensures Wedged(MergeT(s, e)[j]) <==> MergeAt(s, e, j)
  {
  }

  lemma GateTAt(s: Session, forced: bool, e: Env, j: nat)
    requires s.status.Active? && s.stage.FinalGating? && SummaryCall !in s.calls && j < |GateT(s, forced, e)|
    ensures Wedged(GateT(s, forced, e)[j]) <==> GateAt(forced, e.gate, j)
  {
  }

  lemma DeliverTAt(s: Session, e: Env, j: nat)
    requires s.stage.Closing? && j < |DeliverT(s, e)|
    ensures Wedged(DeliverT(s, e)[j]) <==> s.status.Active? && DeliverAt(e, j)
  {
  }

  lemma CloseTAt(s: Session, e: Env, j: nat)
    requires SummaryCall !in s.calls && j < |CloseT(s, e)|
    ensures Wedged(CloseT(s, e)[j]) <==> s.status.Active? && CloseAt(e, j)
  {
    var a := s.(stage := Closing);
    if j > 0 {
      DeliverTAt(a, e, j - 1);
    }
  }

  lemma ReopenAt(cfg: Config, s: Session, e: Env, j: nat)
    requires s.stage.FinalGating? && GateCall in s.calls
    requires var t := ReopenT(s, OpenBlockers(s.findings)); j < |t + EmitT(End(s, t), e)|
    ensures var t := ReopenT(s, OpenBlockers(s.findings));
            Wedged((t + EmitT(End(s, t), e))[j]) <==> s.status.Active? && j == 0
  {
    var t := ReopenT(s, OpenBlockers(s.findings));
    assert End(s, t).stage.QaActiveReopened? && |t| == 2;
    EmitNotWedged(End(s, t), e);
    if j >= 2 {
      assert (t + EmitT(End(s, t), e))[j] == EmitT(End(s, t), e)[j - 2];
    }
  }

  lemma AfterGateTAt(cfg: Config, s: Session, forced: bool, e: Env, j: nat)
    requires s.status.Active? && SummaryCall !in s.calls && j < |AfterGateT(cfg, s, forced, e)|
    requires s.verdict == Some(Fail) ==> s.stage.FinalGating? && GateCall in s.calls
    ensures Wedged(AfterGateT(cfg, s, forced, e)[j]) <==>
            AfterGateAt(cfg, s.verdict == Some(Fail), forced, OpenBlockers(s.findings) != [], s.failCount, e, j)
  {
    hide ReopenT, EmitT, CloseT, OpenBlockers;
    if s.verdict != Some(Fail) || forced {
      CloseTAt(s, e, j);
    } else if OpenBlockers(s.findings) == [] {
      if j > 0 {
        CloseTAt(s.(verdict := Some(ForcedPartial), stage := Closing), e, j - 1);
      }
    } else if s.failCount < cfg.maxFails {
      ReopenAt(cfg, s, e, j);
    } else if j > 0 {
      CloseTAt(s.(verdict := Some(ForcedPartial)), e, j - 1);
    }
  }

  /** What a gate leaves of an ACTIVE session. */
  lemma GateLeaves(s: Session, forced: bool, e: Env)
    requires s.status.Active? && s.stage.FinalGating? && SummaryCall !in s.calls
    ensures var x := End(s, GateT(s, forced, e));
            && (!GateAborts(e.gate) && !e.gate.GateSays? ==> x.status.Failed?)
            && (e.gate.GateSays? ==>
                  && |GateT(s, forced, e)| == 2 && x.status.Active? && x.findings == s.findings
                  && SummaryCall !in x.calls && GateCall in x.calls
                  && (if GateVerdict(forced, e.gate).Fail?
                      then x.verdict == Some(Fail) && x.stage.FinalGating? && x.failCount == s.failCount + 1
                      else x.verdict.Some? && !x.verdict.value.Fail?))
            && |GateT(s, forced, e)| <= 2
  {
  }

  lemma FailedNotWedged(cfg: Config, s: Session, forced: bool, e: Env)
    requires s.status.Failed?
    ensures forall i :: 0 <= i < |AfterGateT(cfg, s, forced, e)| ==> !Wedged(AfterGateT(cfg, s, forced, e)[i])
    ensures forall i :: 0 <= i < |GateT(s, forced, e)| ==> !Wedged(GateT(s, forced, e)[i])
    ensures End(s, GateT(s, forced, e)).status.Failed?
  {
    FailedCloses(s, e);
    FailedCloses(s.(verdict := Some(ForcedPartial), stage := Closing), e);
    FailedCloses(s.(verdict := Some(ForcedPartial)), e);
  }

  lemma FailedCloses(s: Session, e: Env)
    requires s.status.Failed?
    ensures forall i :: 0 <= i < |CloseT(s, e)| ==> !Wedged(CloseT(s, e)[i])
  {
  }

  lemma GatedTAt(cfg: Config, s: Session, forced: bool, e: Env, j: nat)
    requires s.status.Active? && s.stage.FinalGating? && SummaryCall !in s.calls && j < |GatedT(cfg, s, forced, e)|
    ensures Wedged(GatedT(cfg, s, forced, e)[j]) <==> GatedAt(cfg, s, forced, e, j)
  {
    hide GateT, AfterGateT, OpenBlockers, CloseAt, Wedged;
    var t := GateT(s, forced, e);
    var y := End(s, t);
    GateLeaves(s, forced, e);
    if j < |t| {
      GateTAt(s, forced, e, j);
      assert GatedT(cfg, s, forced, e)[j] == t[j];
    } else {
      assert !GateAborts(e.gate);
      assert GatedT(cfg, s, forced, e)[j] == AfterGateT(cfg, y, forced, e)[j - |t|];
      if e.gate.GateSays? {
        AfterGateTAt(cfg, y, forced, e, j - 2);
      } else {
        FailedNotWedged(cfg, y, forced, e);
      }
    }
  }

  lemma FailedGated(cfg: Config, s: Session, forced: bool, e: Env)
    requires s.status.Failed?
    ensures forall i :: 0 <= i < |GatedT(cfg, s, forced, e)| ==> !Wedged(GatedT(cfg, s, forced, e)[i])
  {
    var t := GateT(s, forced, e);
    FailedNotWedged(cfg, s, forced, e);
    FailedNotWedged(cfg, End(s, t), forced, e);
  }

  lemma ChainTAt(cfg: Config, s: Session, forced: bool, e: Env, j: nat)
    requires s.status.Active? && s.material && SummaryCall !in s.calls && j < |ChainT(cfg, s, forced, e)|
    requires s.stage.Merging? || !BusyKey(s.stage).Some?
    ensures Wedged(ChainT(cfg, s, forced, e)[j]) <==> ChainAt(cfg, s, forced, e, j)
  {
    var t := MergeT(s, e);
    var y := End(s, t);
    hide MergeT, GatedT, GatedAt, MergeAt, OpenBlockers;
    MergeLeaves(s, e);
    if j < |t| {
      assert ChainT(cfg, s, forced, e)[j] == t[j];
      MergeTAt(s, e, j);
      hide ChainT;
    } else {
      assert !MergeAborts(s, e);
      assert ChainT(cfg, s, forced, e)[j] == GatedT(cfg, y, forced, e)[j - |t|];
      hide ChainT;
      if e.merge.Fine? {
        GatedTAt(cfg, y, forced, e, j - 2);
        SameGatedAt(cfg, y, s, forced, e, j - 2);
      } else {
        FailedGated(cfg, y, forced, e);
        NoMergeAt(s, e, j);
      }
    }
  }

  lemma MergeLeaves(s: Session, e: Env)
    requires s.material
    ensures var t := MergeT(s, e);
            var y := End(s, t);
            && |t| <= 2
            && (e.merge.Fine? ==>
                  && |t| == 2 && y.stage.FinalGating? && y.status == s.status
                  && y.findings == s.findings && y.failCount == s.failCount
                  && (SummaryCall in y.calls ==> SummaryCall in s.calls))
            && (e.merge.Down? ==> |t| == 1 && y.status.Failed?)
  {
  }

  lemma SameGatedAt(cfg: Config, y: Session, s: Session, forced: bool, e: Env, j: nat)
    requires y.findings == s.findings && y.failCount == s.failCount
    ensures GatedAt(cfg, y, forced, e, j) <==> GatedAt(cfg, s, forced, e, j)
  {
  }

  lemma NoMergeAt(s: Session, e: Env, j: nat)
    requires e.merge.Down?
    ensures !MergeAt(s, e, j)
  {
  }

  // ── every write of every reply ──────────────────────────

  lemma QaTAt(cfg: Config, s: Session, r: Reply, e: Env, k: nat)
    requires GateInv(cfg, s) && s.status.Active? && (s.stage.QaActive? || s.stage.QaActiveReopened?)
    requires k < |QaT(cfg, s, r, e)|
    ensures Wedged(QaT(cfg, s, r, e)[k]) <==> QaAt(cfg, s, r, e, k)
  {
    var s0 := s.(stage := QaActive);
    FreeToClose(cfg, s);
    if r.supplement.Appended? {
      RescanTAt(cfg, s, r, e, k);
    } else if r.supplement.NotMaterial? {
      if r.intent.ForceClose? {
        ForceTrace(cfg, s, r, e);
        if k > 0 {
          ChainTAt(cfg, s0, true, e, k - 1);
          SameChainAt(cfg, s0, s, true, e, k - 1);
        }
      } else {
        OtherNotWedged(cfg, s, r, e, k);
      }
    }
  }

  lemma RescanTAt(cfg: Config, s: Session, r: Reply, e: Env, k: nat)
    requires s.status.Active? && r.supplement.Appended? && k < |QaT(cfg, s, r, e)|
    ensures Wedged(QaT(cfg, s, r, e)[k]) <==> QaAt(cfg, s, r, e, k)
  {
    var s0 := s.(stage := QaActive);
    var t := RescanStartT(s0);
    assert QaT(cfg, s, r, e) == [s0] + (t + ScanT(cfg, t[1], e));
    if k >= 3 {
      ScanTAt(cfg, t[1], e, k - 3);
      SameScanAt(t[1], s, e, k - 3);
    }
  }

  lemma SameScanAt(x: Session, s: Session, e: Env, j: nat)
    requires x.calls == s.calls
    ensures ScanAt(x, e, j) <==> ScanAt(s, e, j)
  {
  }

  lemma SameChainAt(cfg: Config, x: Session, s: Session, forced: bool, e: Env, j: nat)
    requires x == s.(stage := x.stage) && !x.stage.Merging? && !s.stage.Merging?
    ensures ChainAt(cfg, x, forced, e, j) <==> ChainAt(cfg, s, forced, e, j)
  {
  }

  lemma ForceTrace(cfg: Config, s: Session, r: Reply, e: Env)
    requires r.supplement.NotMaterial? && r.intent.ForceClose?
    ensures var s0 := s.(stage := QaActive); QaT(cfg, s, r, e) == [s0] + ChainT(cfg, s0, true, e)
  {
    hide ChainT;
    var s0 := s.(stage := QaActive);
    assert [s0] + [] == [s0];
  }

  lemma OtherNotWedged(cfg: Config, s: Session, r: Reply, e: Env, k: nat)
    requires r.supplement.NotMaterial? && !r.intent.ForceClose? && k < |QaT(cfg, s, r, e)|
    ensures !Wedged(QaT(cfg, s, r, e)[k])
  {
    var s0 := s.(stage := QaActive);
    var (t, act) := QaReplyT(cfg, s0, r.intent);
    var u := ActT(cfg, End(s0, t), act, e);
    QaReplyRow(cfg, s0, r.intent);
    assert !act.GoForceClose?;
    assert QaT(cfg, s, r, e) == [s0] + t + u;
    ActNotWedged(cfg, End(s0, t), act, e);
    if k > |t| {
      assert ([s0] + t + u)[k] == u[k - 1 - |t|];
    } else if k > 0 {
      assert ([s0] + t + u)[k] == t[k - 1];
    }
  }

  lemma ActNotWedged(cfg: Config, s: Session, act: Action, e: Env)
    requires s.stage.QaActive? && !act.GoForceClose?
    ensures forall i :: 0 <= i < |ActT(cfg, s, act, e)| ==> !Wedged(ActT(cfg, s, act, e)[i])
  {
    EmitNotWedged(s, e);
  }

  lemma PulledNotWedged(cfg: Config, s: Session, e: Env)
    requires s.stage.AwaitingCloseConfirmation?
    ensures forall i :: 0 <= i < |PullAtCloseT(cfg, s, e)| ==> !Wedged(PullAtCloseT(cfg, s, e)[i])
  {
    var t := PulledT(cfg, s);
    assert !Wedged(t[0]) && !Wedged(t[1]) && |t| == 2 && End(s, t).stage.QaActive?;
    EmitNotWedged(End(s, t), e);
  }

  lemma ConfirmTAt(cfg: Config, s: Session, r: Reply, e: Env, k: nat)
    requires GateInv(cfg, s) && s.status.Active? && s.stage.AwaitingCloseConfirmation?
    requires k < |ConfirmT(cfg, s, r.intent, e)|
    ensures Wedged(ConfirmT(cfg, s, r.intent, e)[k]) <==> WedgesAt(cfg, s, r, e, k)
  {
    var i := r.intent;
    FreeToClose(cfg, s);
    if i.Accept? || i.Done? || i.PickA? {
      if k > 0 {
        ChainTAt(cfg, s.(stage := Merging), false, e, k - 1);
      }
    } else if i.ForceClose? {
      ChainTAt(cfg, s, true, e, k);
    } else if i.More? || i.PickB? {
      PulledNotWedged(cfg, s, e);
    }
  }

  lemma BusyTAt(cfg: Config, s: Session, e: Env, k: nat)
    requires GateInv(cfg, s) && s.status.Active? && BusyKey(s.stage).Some? && !Wedged(s)
    requires k < |BusyT(cfg, s, e)|
    ensures Wedged(BusyT(cfg, s, e)[k]) <==> BusyAt(s, e, k)
  {
    match s.stage
    case Scanning => ScanTAt(cfg, s, e, k);
    case Merging => MergeTAt(s, e, k);
    case FinalGating => GateTAt(s, false, e, k);
    case Closing => DeliverTAt(s, e, k);
  }

  lemma SubjectTAt(cfg: Config, s: Session, r: Reply, e: Env, k: nat)
    requires s.status.Active? && s.stage.SubjectConfirmation? && k < |SubjectT(cfg, s, r, e)|
    ensures Wedged(SubjectT(cfg, s, r, e)[k]) <==> WedgesAt(cfg, s, r, e, k)
  {
    hide ScanT, ScanAt;
    if !r.newMaterial && r.picksSubject {
      var a := s.(stage := Scanning);
      if k > 0 {
        ScanTAt(cfg, a, e, k - 1);
        SameScanAt(a, s, e, k - 1);
      }
    }
  }

  /** Exactly which writes of which reply leave a session out of reach that was not. */
  lemma WriteWedgesIff(cfg: Config, s: Session, r: Reply, e: Env, k: nat)
    requires GateInv(cfg, s) && s.status.Active? && !Wedged(s) && k < |ReplyT(cfg, s, r, e)|
    ensures Wedged(ReplyT(cfg, s, r, e)[k]) <==> WedgesAt(cfg, s, r, e, k)
  {
    hide ChainT, ScanT, QaT, ConfirmT, SubjectT, ChainAt, QaAt, GateInv;
    match s.stage
    case AwaitingMaterialConfirm => MaterialNot(s, r, e);
    case SubjectConfirmation => SubjectTAt(cfg, s, r, e, k);
    case QaActive => QaTAt(cfg, s, r, e, k);
    case QaActiveReopened => QaTAt(cfg, s, r, e, k);
    case AwaitingCloseConfirmation => ConfirmTAt(cfg, s, r, e, k);
    case Intake =>
      FreeToClose(cfg, s);
      ChainTAt(cfg, s, false, e, k);
    case _ =>
      LiveStage(cfg, s);
      BusyTAt(cfg, s, e, k);
  }

  lemma LiveStage(cfg: Config, s: Session)
    requires GateInv(cfg, s) && s.status.Active?
    ensures !s.stage.Closed? && !s.stage.IngestFailed? && !s.stage.Cancelled?
  {
  }

  lemma MaterialNot(s: Session, r: Reply, e: Env)
    requires s.stage.AwaitingMaterialConfirm?
    ensures forall i :: 0 <= i < |MaterialT(s, r, e)| ==> !Wedged(MaterialT(s, r, e)[i])
  {
  }

  // ── runs ────────────────────────────────────────────────

  /** The last write that the event gets to make is such a one. */
  predicate EventWedges(cfg: Config, s: Session, e: Event) {
    var n := |StepT(cfg, s, e)|;
    s.status.Active? && n > 0 && WedgesAt(cfg, s, e.reply, e.env, n - 1)
  }

  lemma StepWedgesIff(cfg: Config, s: Session, e: Event)
    requires GateInv(cfg, s) && !Wedged(s)
    ensures Wedged(Step(cfg, s, e)) <==> EventWedges(cfg, s, e)
  {
    var t := StepT(cfg, s, e);
    if t != [] {
      assert t[|t| - 1] == ReplyT(cfg, s, e.reply, e.env)[|t| - 1];
      WriteWedgesIff(cfg, s, e.reply, e.env, |t| - 1);
    }
  }

  ghost predicate SomeWedges(cfg: Config, s: Session, es: seq<Event>)
    decreases |es|
  {
    es != [] && (EventWedges(cfg, s, es[0]) || SomeWedges(cfg, Step(cfg, s, es[0]), es[1..]))
  }

  /** Over all runs, cuts included: a session ends out of reach exactly when the last write of one of
      the messages is such a one. */
  lemma {:induction false} WedgedExecIff(cfg: Config, s: Session, es: seq<Event>)
    requires GateInv(cfg, s) && !Wedged(s)
    ensures Wedged(Exec(cfg, s, es)) <==> SomeWedges(cfg, s, es)
    decreases |es|
  {
    hide GateInv, EventWedges, Wedged, Step;
    if es != [] {
      var x := Step(cfg, s, es[0]);
      StepGate(cfg, s, es[0]);
      StepWedgesIff(cfg, s, es[0]);
      if Wedged(x) {
        WedgedForever(cfg, x, es[1..]);
      } else {
        WedgedExecIff(cfg, x, es[1..]);
      }
    }
  }
}
