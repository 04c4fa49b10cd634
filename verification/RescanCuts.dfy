/** New material in Q&A whose handler is cut, and the same text sent again: what becomes of it, for every
    write after which the cut can fall. */
module RescanCuts {
  import opened Models
  import opened Scan
  import opened Protocol
  import opened Coverage
  import opened Losses
  import opened Wedges
  import opened Answers

  /** From this write on the cursor of the new scan is stored and Q&A is open again. */
  predicate ScanThrough(e: Env, k: nat) {
    e.scan.Scanned? && k >= 8 + |e.scan.found|
  }

  // ── the session that the cut leaves ─────────────────────

  lemma FoundStages(cfg: Config, s: Session, found: seq<Finding>, j: nat)
    requires s.stage.Scanning? && j < |found| + 2
    ensures |FoundT(cfg, s, found)| == |found| + 2
    ensures var x := FoundT(cfg, s, found)[j];
            && x.calls == s.calls && (j <= |found| ==> x.stage.Scanning?)
            && (j == |found| + 1 ==> x == WithFirstCursor(cfg, s, found).(stage := QaActive))
    ensures End(s, FoundT(cfg, s, found)) == WithFirstCursor(cfg, s, found).(stage := QaActive)
  {
    hide Prioritize, FirstCursor;
  }

  lemma EmitLeaves(s: Session, e: Env)
    ensures forall i :: 0 <= i < |EmitT(s, e)| ==>
              var x := EmitT(s, e)[i]; x.cursor == s.cursor && (x.status.Active? ==> x.stage == s.stage)
  {
  }

  /** The writes of a scan: SCANNING until it is through. */
  lemma ScanStages(cfg: Config, s: Session, e: Env, j: nat)
    requires s.status.Active? && s.stage.Scanning? && j < |ScanT(cfg, s, e)|
    ensures var x := ScanT(cfg, s, e)[j];
            x.status.Active? ==>
              if e.scan.Scanned? && j >= 4 + |e.scan.found|
              then x.stage.QaActive? && x.cursor == FirstCursor(Prioritize(e.scan.found), cfg.topN)
              else x.stage.Scanning? && s.calls <= x.calls
  {
    var a := Log(s, PillarCall);
    var b := Log(a, ResponderCall);
    if e.scan.Scanned? {
      var found := e.scan.found;
      var u := FoundT(cfg, b, found);
      ScannedTrace(cfg, s, e);
      FoundStages(cfg, b, found, if 3 <= j < 5 + |found| then j - 3 else 0);
      EmitLeaves(End(b, u), e);
      assert ScanT(cfg, s, e) == [s, a, b] + u + EmitT(End(b, u), e);
    } else {
      assert s == s.(stage := Scanning);
      assert ScanT(cfg, s, e) == [s] + ScanRunT(cfg, s, e);
      ScanRunStages(cfg, s, e);
    }
  }

  lemma ScanRunStages(cfg: Config, s: Session, e: Env)
    requires s.stage.Scanning? && !e.scan.Scanned?
    ensures forall i :: 0 <= i < |ScanRunT(cfg, s, e)| ==>
              var x := ScanRunT(cfg, s, e)[i]; x.status.Active? ==> x.stage.Scanning? && s.calls <= x.calls
  {
  }

  /** The sessions before the scan of a rescan. */
  function Before(s: Session): (Session, Session, Session) {
    var s0 := s.(stage := QaActive);
    var a := s0.(cursor := EMPTY_CURSOR);
    (s0, a, a.(stage := Scanning, roundNo := s0.roundNo + 1))
  }

  lemma CutEarly(cfg: Config, s: Session, r: Reply, e: Env, k: nat)
    requires s.status.Active? && Rescans(s, r) && k <= 3
    ensures var (s0, a, b) := Before(s);
            var x := Step(cfg, s, Event(r, e, Some(k)));
            x == if k == 0 then s else if k == 1 then s0 else if k == 2 then a else b
  {
    var (s0, a, b) := Before(s);
    RescanTrace(cfg, s, r, e);
    ShortCut(s0, a, b, ScanT(cfg, b, e), k);
  }

  lemma ShortCut(s0: Session, a: Session, b: Session, t: seq<Session>, k: nat)
    requires k <= 3
    ensures var w := Kept([s0, a, b] + t, Some(k));
            w == if k == 0 then [] else if k == 1 then [s0] else if k == 2 then [s0, a] else [s0, a, b]
  {
  }

  lemma CutLate(cfg: Config, s: Session, r: Reply, e: Env, k: nat) returns (j: nat)
    requires s.status.Active? && Rescans(s, r) && k > 3
    ensures var b := Before(s).2;
            && j < |ScanT(cfg, b, e)| && Step(cfg, s, Event(r, e, Some(k))) == ScanT(cfg, b, e)[j]
            && (e.scan.Scanned? ==> (j >= 4 + |e.scan.found| <==> ScanThrough(e, k)))
  {
    var (s0, a, b) := Before(s);
    var t := ScanT(cfg, b, e);
    RescanTrace(cfg, s, r, e);
    ScanLength(cfg, b, e);
    var w := Kept([s0, a, b] + t, Some(k));
    j := |w| - 4;
    assert w[|w| - 1] == t[j];
  }

  /** What a rescan that is cut after k writes leaves behind. */
  lemma CutRescan(cfg: Config, s: Session, r: Reply, e: Env, k: nat)
    requires s.status.Active? && Rescans(s, r)
    ensures var x := Step(cfg, s, Event(r, e, Some(k)));
            && (k == 0 ==> x == s)
            && (k == 1 ==> x == s.(stage := QaActive))
            && (k == 2 ==> x == s.(stage := QaActive, cursor := EMPTY_CURSOR))
            && (k >= 3 && x.status.Active? ==>
                  if ScanThrough(e, k)
                  then x.stage.QaActive? && x.cursor == FirstCursor(Prioritize(e.scan.found), cfg.topN)
                  else x.stage.Scanning? && s.calls <= x.calls)
  {
    hide Step, ScanT, FirstCursor, Prioritize;
    if k <= 3 {
      CutEarly(cfg, s, r, e, k);
    } else {
      var j := CutLate(cfg, s, r, e, k);
      ScanStages(cfg, Before(s).2, e, j);
    }
  }

  lemma RescanTrace(cfg: Config, s: Session, r: Reply, e: Env)
    requires Rescans(s, r)
    ensures var (s0, a, b) := Before(s); ReplyT(cfg, s, r, e) == [s0, a, b] + ScanT(cfg, b, e)
  {
    hide ScanT;
    var (s0, a, b) := Before(s);
    assert QaT(cfg, s, r, e) == [s0] + ([a, b] + ScanT(cfg, b, e));
  }

  lemma ScanLength(cfg: Config, s: Session, e: Env)
    requires s.stage.Scanning?
    ensures ScanT(cfg, s, e) != [] && (e.scan.Scanned? ==> |ScanT(cfg, s, e)| >= 5 + |e.scan.found|)
  {
    if e.scan.Scanned? {
      ScannedTrace(cfg, s, e);
    }
  }

  lemma EmptyCursorCloses(cfg: Config, x: Session, r: Reply, e: Env)
    requires x.status.Active? && x.stage.QaActive? && x.cursor == EMPTY_CURSOR
    requires r.supplement.NotMaterial? && !r.intent.ForceClose?
    ensures Step(cfg, x, Event(r, e, None)) == x.(stage := AwaitingCloseConfirmation)
  {
    assert Take(EMPTY_CURSOR.deferred, cfg.topN) == [];
    var y := x.(stage := AwaitingCloseConfirmation);
    assert x.(stage := QaActive) == x && Pulled(x.cursor, cfg.topN) == x.cursor;
    QaEnd(cfg, x, r, e);
    assert StepT(cfg, x, Event(r, e, None)) == QaT(cfg, x, r, e);
  }

  // ── the same text again ─────────────────────────────────

  lemma AsBefore(cfg: Config, s: Session, q: Reply, e: Env)
    requires s.status.Active? && (s.stage.QaActive? || s.stage.QaActiveReopened?)
    ensures Step(cfg, s.(stage := QaActive), Event(q, e, None)) == Step(cfg, s, Event(q, e, None))
  {
    hide RescanT, QaReplyT, ActT;
    var s0 := s.(stage := QaActive);
    assert QaT(cfg, s0, q, e) == QaT(cfg, s, q, e) && QaT(cfg, s, q, e) != [];
    assert StepT(cfg, s0, Event(q, e, None)) == StepT(cfg, s, Event(q, e, None)) != [] by {
    }
  }

  /** The text is in normalized.md already when it is sent again, and so it is read as a reply. If the
      cut fell before the cursor was emptied, it answers the question still on screen, and the new
      material is never scanned; if it fell right after that, it proposes to close; if it fell during
      the scan, and an earlier scan is logged, the session is out of reach; and after that it answers the
      first question of the new scan. */
  lemma SentAgain(cfg: Config, s: Session, r: Reply, e: Env, k: nat, again: Env)
    requires s.status.Active? && Rescans(s, r)
    ensures var q := r.(supplement := NotMaterial);
            var x := Step(cfg, s, Event(r, e, Some(k)));
            var y := Step(cfg, x, Event(q, again, None));
            && (k <= 1 ==> y == Step(cfg, s, Event(q, again, None)))
            && (k == 2 && !r.intent.ForceClose? ==>
                  y == s.(stage := AwaitingCloseConfirmation, cursor := EMPTY_CURSOR))
            && (k >= 3 && x.status.Active? && !ScanThrough(e, k) && PillarCall in s.calls ==> Wedged(x) && y == x)
            && (k >= 3 && x.status.Active? && ScanThrough(e, k) ==>
                  x.stage.QaActive? && x.cursor == FirstCursor(Prioritize(e.scan.found), cfg.topN))
            && (!x.status.Active? ==> y == x)
  {
    var q := r.(supplement := NotMaterial);
    var x := Step(cfg, s, Event(r, e, Some(k)));
    CutRescan(cfg, s, r, e, k);
    if k == 1 {
      AsBefore(cfg, s, q, again);
    } else if k == 2 && !r.intent.ForceClose? {
      EmptyCursorCloses(cfg, x, q, again);
    }
    if Wedged(x) {
      WedgedForever(cfg, x, [Event(q, again, None)]);
      assert Exec(cfg, x, [Event(q, again, None)]) == Step(cfg, x, Event(q, again, None));
    }
    if k >= 3 && x.status.Active? && !ScanThrough(e, k) && PillarCall in s.calls {
      assert PillarCall in x.calls;
    }
    if !x.status.Active? {
      NoLongerActive(cfg, x, Event(q, again, None));
    }
  }

  lemma NoLongerActive(cfg: Config, s: Session, e: Event)
    requires !s.status.Active?
    ensures Step(cfg, s, e) == s
  {
  }

  /** So a text that is read as `accept` accepts the finding on screen, unscanned. */
  lemma UnscannedAccepts(cfg: Config, s: Session, r: Reply, e: Env, k: nat, again: Env)
    requires s.status.Active? && Rescans(s, r) && r.intent.Accept? && s.cursor.current.Some? && k <= 1
    ensures var x := Step(cfg, s, Event(r, e, Some(k)));
            var y := Step(cfg, x, Event(r.(supplement := NotMaterial), again, None));
            && |y.findings| == |s.findings|
            && forall i :: 0 <= i < |s.findings| && s.findings[i].id == s.cursor.current.value ==>
                 y.findings[i].status.Accepted?
  {
    SentAgain(cfg, s, r, e, k, again);
    AnswerStored(cfg, s, r.(supplement := NotMaterial), again);
  }

  /** Cut right after the cursor was emptied: every reply but a forced close then proposes to close, with
      all findings as they were, and none of them in the cursor. */
  lemma WipedProposesClose(cfg: Config, s: Session, r: Reply, e: Env, q: Reply, again: Env)
    requires s.status.Active? && Rescans(s, r) && q.supplement.NotMaterial? && !q.intent.ForceClose?
    ensures var x := Step(cfg, s, Event(r, e, Some(2)));
            var y := Step(cfg, x, Event(q, again, None));
            && x == s.(stage := QaActive, cursor := EMPTY_CURSOR)
            && y == x.(stage := AwaitingCloseConfirmation)
  {
    CutRescan(cfg, s, r, e, 2);
    EmptyCursorCloses(cfg, s.(stage := QaActive, cursor := EMPTY_CURSOR), q, again);
  }
}
