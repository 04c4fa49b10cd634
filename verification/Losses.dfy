/** Exactly when a finding of the latest scan is lost from the cursor, and, in all other runs, that
    none is and that they are presented in order. */
module Losses {
  import opened Models
  import opened Scan
  import opened Protocol
  import opened Coverage

  /** Every finding of the latest scan is done, on screen, next or deferred; and until a reopening
      they are presented as the scan ranked them. */
  ghost predicate Covered(s: Session) {
    && (forall x :: x in s.plan ==> x in Ids(s.cursor))
    && (!s.cursor.rescan && Distinct(s.plan) ==> Presentation(s.cursor) == s.plan)
  }

  ghost predicate AllCovered(t: seq<Session>) {
    forall i :: 0 <= i < |t| ==> Covered(t[i])
  }

  lemma CoveredCat(t: seq<Session>, u: seq<Session>)
    requires AllCovered(t) && AllCovered(u)
    ensures AllCovered(t + u)
  {
  }

  lemma SameCovered(s: Session, x: Session)
    requires Covered(s) && x.cursor == s.cursor && x.plan == s.plan
    ensures Covered(x)
  {
  }

  lemma SameCoveredAll(s: Session, t: seq<Session>)
    requires Covered(s) && forall i :: 0 <= i < |t| ==> t[i].cursor == s.cursor && t[i].plan == s.plan
    ensures AllCovered(t)
  {
    forall i | 0 <= i < |t| ensures Covered(t[i]) {
      SameCovered(s, t[i]);
    }
  }

  lemma AdvancedCovered(s: Session, n: nat)
    requires Covered(s)
    ensures Covered(s.(cursor := Advanced(s.cursor), asked := s.asked + n))
  {
    AdvancedKeepsIds(s.cursor);
    if Distinct(Presentation(s.cursor)) {
      AdvancedKeepsOrder(s.cursor);
    }
  }

  lemma PulledCovered(cfg: Config, s: Session)
    requires Covered(s)
    ensures Covered(s.(cursor := Pulled(s.cursor, cfg.topN)))
  {
    PulledKeepsIds(s.cursor, cfg.topN);
    PulledKeepsOrder(s.cursor, cfg.topN);
  }

  // ── handlers ────────────────────────────────────────────

  lemma EmitCovered(s: Session, e: Env)
    requires Covered(s)
    ensures AllCovered(EmitT(s, e))
  {
    SameCoveredAll(s, EmitT(s, e));
  }

  lemma NewCursor(cfg: Config, s: Session, found: seq<Finding>)
    ensures Covered(WithFirstCursor(cfg, s, found))
  {
    FirstCursorPresentsAll(Prioritize(found), cfg.topN);
  }

  /** The end of a scan: from the new cursor on everything is covered. */
  lemma FoundCovered(cfg: Config, s: Session, found: seq<Finding>, k: nat)
    requires k < |found| + 2
    ensures Covered(End(s, FoundT(cfg, s, found))) && |FoundT(cfg, s, found)| == |found| + 2
    ensures var x := FoundT(cfg, s, found)[k];
            && (k < |found| ==> x.cursor == s.cursor && x.plan == s.plan)
            && (k >= |found| ==> Covered(x))
  {
    hide Covered, FirstCursor, Prioritize;
    var d := WithFirstCursor(cfg, s, found);
    NewCursor(cfg, s, found);
    SameCovered(d, d.(stage := QaActive));
    assert FoundT(cfg, s, found) == Appends(s, Opened(found)) + [d, d.(stage := QaActive)];
  }

  /** The writes of a scan that succeeds. */
  lemma ScannedTrace(cfg: Config, s: Session, e: Env)
    requires s.stage.Scanning? && e.scan.Scanned?
    ensures var a := Log(s, PillarCall);
            var b := Log(a, ResponderCall);
            var u := FoundT(cfg, b, e.scan.found);
            ScanT(cfg, s, e) == [s, a, b] + u + EmitT(End(b, u), e)
  {
    hide FoundT, EmitT;
    var a := Log(s, PillarCall);
    var b := Log(a, ResponderCall);
    var u := FoundT(cfg, b, e.scan.found);
    assert s == s.(stage := Scanning);
    EndCat(s, [a, b], u);
    EndCat(s, [a], [b]);
    assert [s] + ([a, b] + u) == [s, a, b] + u;
  }

  /** A scan, write by write: the cursor is the old one until the new one is stored. */
  lemma ScanWrites(cfg: Config, s: Session, e: Env, k: nat)
    requires s.stage.Scanning? && k < |ScanT(cfg, s, e)|
    ensures var x := ScanT(cfg, s, e)[k];
            if e.scan.Scanned? && k >= 3 + |e.scan.found| then Covered(x)
            else x.cursor == s.cursor && x.plan == s.plan
  {
    if e.scan.Scanned? {
      ScannedTrace(cfg, s, e);
      ScannedWrites(cfg, s, e, k);
    } else {
      assert s == s.(stage := Scanning);
      assert ScanT(cfg, s, e) == [s] + ScanRunT(cfg, s, e);
      ScanFails(cfg, s, e);
    }
  }

  lemma ScannedWrites(cfg: Config, s: Session, e: Env, k: nat)
    requires e.scan.Scanned?
    requires var b := Log(Log(s, PillarCall), ResponderCall);
             var u := FoundT(cfg, b, e.scan.found);
             k < 3 + |u| + |EmitT(End(b, u), e)|
    ensures var a := Log(s, PillarCall);
            var b := Log(a, ResponderCall);
            var u := FoundT(cfg, b, e.scan.found);
            var x := ([s, a, b] + u + EmitT(End(b, u), e))[k];
            if k >= 3 + |e.scan.found| then Covered(x) else x.cursor == s.cursor && x.plan == s.plan
  {
    hide FoundT, EmitT, Covered;
    var b := Log(Log(s, PillarCall), ResponderCall);
    var u := FoundT(cfg, b, e.scan.found);
    FoundCovered(cfg, b, e.scan.found, 0);
    if 3 <= k < 3 + |u| {
      FoundCovered(cfg, b, e.scan.found, k - 3);
    }
    EmitCovered(End(b, u), e);
  }

  lemma ScanFails(cfg: Config, s: Session, e: Env)
    requires !e.scan.Scanned?
    ensures forall i :: 0 <= i < |ScanRunT(cfg, s, e)| ==>
              ScanRunT(cfg, s, e)[i].cursor == s.cursor && ScanRunT(cfg, s, e)[i].plan == s.plan
  {
  }

  lemma ScanCovered(cfg: Config, s: Session, e: Env)
    requires Covered(s) && s.stage.Scanning?
    ensures AllCovered(ScanT(cfg, s, e))
  {
    var t := ScanT(cfg, s, e);
    forall k | 0 <= k < |t| ensures Covered(t[k]) {
      ScanWrites(cfg, s, e, k);
      if t[k].cursor == s.cursor && t[k].plan == s.plan {
        SameCovered(s, t[k]);
      }
    }
  }

  lemma ReopenCovered(s: Session)
    requires Covered(s) && OpenBlockers(s.findings) != []
    ensures AllCovered(ReopenT(s, OpenBlockers(s.findings)))
  {
    ReopenedCursor(s.cursor, OpenBlockers(s.findings));
  }

  lemma ChainCovered(cfg: Config, s: Session, forced: bool, e: Env)
    requires Covered(s)
    ensures AllCovered(ChainT(cfg, s, forced, e))
  {
    var t := MergeT(s, e);
    SameCoveredAll(s, t);
    if !MergeAborts(s, e) {
      SameCovered(s, End(s, t));
      GatedCovered(cfg, End(s, t), forced, e);
      CoveredCat(t, GatedT(cfg, End(s, t), forced, e));
    }
  }

  lemma GatedCovered(cfg: Config, s: Session, forced: bool, e: Env)
    requires Covered(s)
    ensures AllCovered(GatedT(cfg, s, forced, e))
  {
    var t := GateT(s, forced, e);
    SameCoveredAll(s, t);
    if !GateAborts(e.gate) {
      SameCovered(s, End(s, t));
      AfterGateCovered(cfg, End(s, t), forced, e);
      CoveredCat(t, AfterGateT(cfg, End(s, t), forced, e));
    }
  }

  lemma AfterGateCovered(cfg: Config, s: Session, forced: bool, e: Env)
    requires Covered(s)
    ensures AllCovered(AfterGateT(cfg, s, forced, e))
  {
    if s.verdict == Some(Fail) && !forced && OpenBlockers(s.findings) != [] && s.failCount < cfg.maxFails {
      var t := ReopenT(s, OpenBlockers(s.findings));
      ReopenCovered(s);
      EmitCovered(End(s, t), e);
      CoveredCat(t, EmitT(End(s, t), e));
    } else {
      CloseWrites(cfg, s, forced, e);
      SameCoveredAll(s, AfterGateT(cfg, s, forced, e));
    }
  }

  lemma CloseWrites(cfg: Config, s: Session, forced: bool, e: Env)
    requires !(s.verdict == Some(Fail) && !forced && OpenBlockers(s.findings) != [] && s.failCount < cfg.maxFails)
    ensures forall i :: 0 <= i < |AfterGateT(cfg, s, forced, e)| ==>
              AfterGateT(cfg, s, forced, e)[i].cursor == s.cursor && AfterGateT(cfg, s, forced, e)[i].plan == s.plan
  {
    hide ReopenT, EmitT, OpenBlockers;
    DeliverWrites(s, e);
    DeliverWrites(s.(verdict := Some(ForcedPartial), stage := Closing), e);
    DeliverWrites(s.(verdict := Some(ForcedPartial)), e);
  }

  lemma DeliverWrites(s: Session, e: Env)
    ensures forall i :: 0 <= i < |CloseT(s, e)| ==> CloseT(s, e)[i].cursor == s.cursor && CloseT(s, e)[i].plan == s.plan
  {
  }

  lemma QaReplyCovered(cfg: Config, s: Session, i: Intent)
    requires Covered(s)
    ensures AllCovered(QaReplyT(cfg, s, i).0) && Covered(End(s, QaReplyT(cfg, s, i).0))
  {
    hide Covered, Restatus, Pulled, Advanced;
    if i.More? {
      var s1 := s.(cursor := Pulled(s.cursor, cfg.topN));
      PulledCovered(cfg, s);
      AdvancedCovered(s1, 0);
      assert s1.(cursor := Advanced(s1.cursor), asked := s1.asked + 0) == s1.(cursor := Advanced(s1.cursor));
    } else if !i.Done? && !i.ForceClose? && s.cursor.current.Some? && !i.Question? {
      var s1 := if StatusFor(i).Some?
                then s.(findings := Restatus(s.findings, s.cursor.current.value, StatusFor(i).value)) else s;
      SameCovered(s, s1);
      AdvancedCovered(s1, 1);
    }
  }

  lemma ActCovered(cfg: Config, s: Session, act: Action, e: Env)
    requires Covered(s)
    ensures AllCovered(ActT(cfg, s, act, e))
  {
    match act
    case EmitNext => EmitCovered(s, e);
    case ProposeClose => SameCovered(s, s.(stage := AwaitingCloseConfirmation));
    case GoForceClose => ChainCovered(cfg, s, true, e);
    case NoOp =>
  }

  lemma QaCovered(cfg: Config, s: Session, r: Reply, e: Env)
    requires Covered(s) && !r.supplement.Appended?
    ensures AllCovered(QaT(cfg, s, r, e))
  {
    var s0 := s.(stage := QaActive);
    SameCovered(s, s0);
    if r.supplement.NotMaterial? {
      var (t, act) := QaReplyT(cfg, s0, r.intent);
      QaReplyCovered(cfg, s0, r.intent);
      ActCovered(cfg, End(s0, t), act, e);
      CoveredCat([s0], t);
      CoveredCat([s0] + t, ActT(cfg, End(s0, t), act, e));
    }
  }

  lemma PulledAtPromptCovered(cfg: Config, s: Session)
    requires Covered(s)
    ensures AllCovered(PulledT(cfg, s))
  {
    var n := if s.cursor.current.Some? then 1 else 0;
    var p := s.(cursor := Pulled(s.cursor, cfg.topN));
    PulledCovered(cfg, s);
    AdvancedCovered(p, n);
    var a := p.(cursor := Advanced(p.cursor), asked := p.asked + n);
    assert PulledT(cfg, s) == [a, a.(stage := QaActive)];
    SameCovered(a, a.(stage := QaActive));
  }

  lemma ConfirmCovered(cfg: Config, s: Session, i: Intent, e: Env)
    requires Covered(s)
    ensures AllCovered(ConfirmT(cfg, s, i, e))
  {
    if i.Accept? || i.Done? || i.PickA? {
      var a := s.(stage := Merging);
      SameCovered(s, a);
      ChainCovered(cfg, a, false, e);
      CoveredCat([a], ChainT(cfg, a, false, e));
    } else if i.ForceClose? {
      ChainCovered(cfg, s, true, e);
    } else if (i.More? || i.PickB?) && Take(s.cursor.deferred, cfg.topN) != [] {
      var t := PulledT(cfg, s);
      PulledAtPromptCovered(cfg, s);
      EmitCovered(End(s, t), e);
      CoveredCat(t, EmitT(End(s, t), e));
    }
  }

  lemma BusyCovered(cfg: Config, s: Session, e: Env)
    requires Covered(s) && BusyKey(s.stage).Some?
    ensures AllCovered(BusyT(cfg, s, e))
  {
    if s.stage.Scanning? {
      ScanCovered(cfg, s, e);
    } else {
      BusyWrites(cfg, s, e);
      SameCoveredAll(s, BusyT(cfg, s, e));
    }
  }

  lemma BusyWrites(cfg: Config, s: Session, e: Env)
    requires BusyKey(s.stage).Some? && !s.stage.Scanning?
    ensures forall i :: 0 <= i < |BusyT(cfg, s, e)| ==>
              BusyT(cfg, s, e)[i].cursor == s.cursor && BusyT(cfg, s, e)[i].plan == s.plan
  {
  }

  lemma SubjectCovered(cfg: Config, s: Session, r: Reply, e: Env)
    requires Covered(s)
    ensures AllCovered(SubjectT(cfg, s, r, e))
  {
    if r.newMaterial {
      SameCoveredAll(s, SubjectT(cfg, s, r, e));
    } else if r.picksSubject {
      var a := s.(stage := Scanning);
      SameCovered(s, a);
      ScanCovered(cfg, a, e);
      CoveredCat([a], ScanT(cfg, a, e));
    }
  }

  lemma ReplyCovered(cfg: Config, s: Session, r: Reply, e: Env)
    requires Covered(s) && !Rescans(s, r)
    ensures AllCovered(ReplyT(cfg, s, r, e))
  {
    hide Covered, QaT, ConfirmT, SubjectT, BusyT, ChainT;
    match s.stage
    case AwaitingMaterialConfirm => SameCoveredAll(s, MaterialT(s, r, e));
    case SubjectConfirmation => SubjectCovered(cfg, s, r, e);
    case QaActive => QaCovered(cfg, s, r, e);
    case QaActiveReopened => QaCovered(cfg, s, r, e);
    case AwaitingCloseConfirmation => ConfirmCovered(cfg, s, r.intent, e);
    case _ =>
      if BusyKey(s.stage).Some? {
        BusyCovered(cfg, s, e);
      } else {
        ChainCovered(cfg, s, false, e);
      }
  }

  // ── the rescan ──────────────────────────────────────────

  predicate Rescans(s: Session, r: Reply) {
    (s.stage.QaActive? || s.stage.QaActiveReopened?) && r.supplement.Appended?
  }

  /** The writes of a rescan from the emptying of the cursor to the new one; to its end if the scan
      fails or raises. */
  predicate InWindow(e: Env, k: nat) {
    k >= 1 && (e.scan.Scanned? ==> k < 6 + |e.scan.found|)
  }

  lemma RescanWrites(cfg: Config, s: Session, r: Reply, e: Env, k: nat)
    requires Rescans(s, r) && k < |QaT(cfg, s, r, e)|
    ensures var x := QaT(cfg, s, r, e)[k];
            && (k == 0 ==> x == s.(stage := QaActive))
            && (InWindow(e, k) ==> x.cursor == EMPTY_CURSOR && x.plan == s.plan)
            && (k > 0 && !InWindow(e, k) ==> Covered(x))
  {
    hide ScanT, Covered;
    var s0 := s.(stage := QaActive);
    var a := s0.(cursor := EMPTY_CURSOR);
    var b := a.(stage := Scanning, roundNo := s0.roundNo + 1);
    assert QaT(cfg, s, r, e) == [s0] + ([a, b] + ScanT(cfg, b, e));
    if k == 1 || k == 2 {
      assert InWindow(e, k);
    } else if k >= 3 {
      ScanWrites(cfg, b, e, k - 3);
      assert QaT(cfg, s, r, e)[k] == ScanT(cfg, b, e)[k - 3];
    }
  }

  lemma WipedUncovered(s: Session, x: Session)
    requires x.cursor == EMPTY_CURSOR && x.plan == s.plan
    ensures Covered(x) <==> s.plan == []
  {
    assert Presentation(EMPTY_CURSOR) == [];
    if s.plan != [] {
      assert s.plan[0] in s.plan;
    }
  }

  /** A write loses a finding of the latest scan exactly when it is one of those writes of a rescan. */
  lemma LossIff(cfg: Config, s: Session, r: Reply, e: Env, k: nat)
    requires Covered(s) && k < |ReplyT(cfg, s, r, e)|
    ensures Covered(ReplyT(cfg, s, r, e)[k]) <==> !(Rescans(s, r) && s.plan != [] && InWindow(e, k))
  {
    if Rescans(s, r) {
      var x := QaT(cfg, s, r, e)[k];
      RescanWrites(cfg, s, r, e, k);
      if k == 0 {
        SameCovered(s, x);
      } else if InWindow(e, k) {
        WipedUncovered(s, x);
      }
    } else {
      ReplyCovered(cfg, s, r, e);
    }
  }

  // ── runs ────────────────────────────────────────────────

  /** The number of writes an event gets to make. */
  function Reach(cfg: Config, s: Session, e: Event): nat { |StepT(cfg, s, e)| }

  /** New material whose handler is cut short, or whose scan fails or raises, after the cursor was
      emptied and before there is a new one. */
  predicate Loses(cfg: Config, s: Session, e: Event) {
    && s.status.Active? && Rescans(s, e.reply) && s.plan != []
    && Reach(cfg, s, e) > 0 && InWindow(e.env, Reach(cfg, s, e) - 1)
  }

  /** A message loses a finding exactly when it is such. */
  lemma StepLossIff(cfg: Config, s: Session, e: Event)
    requires Covered(s)
    ensures Covered(Step(cfg, s, e)) <==> !Loses(cfg, s, e)
  {
    var t := StepT(cfg, s, e);
    if t != [] {
      assert t[|t| - 1] == ReplyT(cfg, s, e.reply, e.env)[|t| - 1];
      LossIff(cfg, s, e.reply, e.env, |t| - 1);
    }
  }

  predicate Lossless(cfg: Config, s: Session, es: seq<Event>)
    decreases |es|
  {
    es == [] || (!Loses(cfg, s, es[0]) && Lossless(cfg, Step(cfg, s, es[0]), es[1..]))
  }

  lemma {:induction false} LosslessCovered(cfg: Config, s: Session, es: seq<Event>)
    requires Covered(s) && Lossless(cfg, s, es)
    ensures Covered(Exec(cfg, s, es))
    decreases |es|
  {
    hide Covered, Loses, Step;
    if es != [] {
      StepLossIff(cfg, s, es[0]);
      LosslessCovered(cfg, Step(cfg, s, es[0]), es[1..]);
    }
  }

  lemma FreshCovered(s: Session)
    requires Fresh(s)
    ensures Covered(s)
  {
    assert Presentation(EMPTY_CURSOR) == [];
  }

  /** At the start of the run and after each of its messages. */
  ghost predicate AlwaysCovered(cfg: Config, s: Session, es: seq<Event>)
    decreases |es|
  {
    Covered(s) && (es == [] || AlwaysCovered(cfg, Step(cfg, s, es[0]), es[1..]))
  }

  lemma {:induction false} AlwaysCoveredIff(cfg: Config, s: Session, es: seq<Event>)
    requires Covered(s)
    ensures AlwaysCovered(cfg, s, es) <==> Lossless(cfg, s, es)
    decreases |es|
  {
    hide Covered, Loses, Step;
    if es != [] {
      StepLossIff(cfg, s, es[0]);
      if !Loses(cfg, s, es[0]) {
        AlwaysCoveredIff(cfg, Step(cfg, s, es[0]), es[1..]);
      }
    }
  }

  /** Over any run, cuts elsewhere included: every finding of the latest scan is after each message
      done, on screen, next or deferred, and presented in order, exactly when the run has no such
      message; and the cursor never names anything but stored findings. */
  lemma NoFindingLostIff(cfg: Config, s: Session, es: seq<Event>)
    requires Fresh(s)
    ensures AlwaysCovered(cfg, s, es) <==> Lossless(cfg, s, es)
    ensures var x := Exec(cfg, s, es);
            && Ids(x.cursor) <= FindingIds(x.findings)
            && (Lossless(cfg, s, es) ==> forall id :: id in x.plan ==> id in Ids(x.cursor))
  {
    FreshCovered(s);
    AlwaysCoveredIff(cfg, s, es);
    OnlyStoredFindings(cfg, s, es);
    if Lossless(cfg, s, es) {
      LosslessCovered(cfg, s, es);
    }
  }

  /** And until the first reopening after a scan with distinct ids, done, current, pending and
      deferred are together the prioritised list of that scan, in order. */
  lemma ExactPresentationOrder(cfg: Config, s: Session, es: seq<Event>)
    requires Fresh(s) && Lossless(cfg, s, es)
    ensures var x := Exec(cfg, s, es);
            !x.cursor.rescan && Distinct(x.plan) ==> Presentation(x.cursor) == x.plan
  {
    FreshCovered(s);
    LosslessCovered(cfg, s, es);
  }
}
