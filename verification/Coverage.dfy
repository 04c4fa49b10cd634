/** The cursor names stored findings only, a reopened session has something to ask, and the number
    of questions asked is bounded: over all runs, cuts included. */
module Coverage {
  import opened Models
  import opened Scan
  import opened Protocol
  import opened GateSafety

  ghost function FindingIds(fs: seq<Finding>): set<Id> {
    set x | x in IdsOf(fs)
  }

  /** There is a question on screen and every open BLOCKER is on screen or next in line. */
  ghost predicate Asking(s: Session) {
    && s.cursor.current.Some?
    && forall x :: x in OpenBlockers(s.findings) ==> s.cursor.current == Some(x) || x in s.cursor.pending
  }

  ghost predicate CursorInv(s: Session) {
    && Ids(s.cursor) <= FindingIds(s.findings)
    && (s.status.Active? && s.stage.QaActiveReopened? ==> Asking(s))
  }

  /** Reopenings still possible. */
  function Reserve(cfg: Config, s: Session): nat {
    if s.failCount < Cap(cfg) then Cap(cfg) - 1 - s.failCount else 0
  }

  /** k rounds over n findings: k * n. */
  function Rounds(k: nat, n: nat): nat {
    if k == 0 then 0 else n + Rounds(k - 1, n)
  }

  /** The questions asked fit in `cap` rounds over n findings; as long as the session is active,
      together with those still to ask and those that r more reopenings may add. */
  predicate Within(cap: nat, r: nat, asked: nat, left: nat, n: nat, active: bool) {
    && asked <= Rounds(cap, n)
    && (active ==> asked + left + Rounds(r, n) <= Rounds(cap, n))
  }

  ghost predicate WorkInv(cfg: Config, s: Session) {
    Within(Cap(cfg), Reserve(cfg, s), s.asked, Remaining(s.cursor), |s.findings|, s.status.Active?)
  }

  ghost predicate DataInv(cfg: Config, s: Session) {
    CursorInv(s) && WorkInv(cfg, s)
  }

  ghost predicate AllData(cfg: Config, t: seq<Session>) {
    forall i :: 0 <= i < |t| ==> DataInv(cfg, t[i])
  }

  lemma DataCat(cfg: Config, t: seq<Session>, u: seq<Session>)
    requires AllData(cfg, t) && AllData(cfg, u)
    ensures AllData(cfg, t + u)
  {
  }

  // ── arithmetic of the budget ────────────────────────────

  lemma {:induction false} RoundsProduct(k: nat, n: nat)
    ensures Rounds(k, n) == k * n
  {
    if k > 0 {
      RoundsProduct(k - 1, n);
      assert (k - 1) * n + n == k * n;
    }
  }

  lemma {:induction false} RoundsOver(k: nat, n: nat, m: nat)
    ensures Rounds(k, n + m) == Rounds(k, n) + Rounds(k, m)
  {
    if k > 0 {
      RoundsOver(k - 1, n, m);
    }
  }

  lemma {:induction false} FewerRounds(j: nat, k: nat, n: nat)
    requires j <= k
    ensures Rounds(j, n) <= Rounds(k, n)
    ensures j < k ==> Rounds(j, n) + n <= Rounds(k, n)
  {
    if j < k {
      FewerRounds(j, k - 1, n);
    }
  }

  /** New findings bring as many more questions, and the budget still holds. */
  lemma MoreFindings(cap: nat, r: nat, asked: nat, left: nat, n: nat, m: nat, active: bool)
    requires r < cap && Within(cap, r, asked, left, n, active)
    ensures Within(cap, r, asked, left, n + m, active)
    ensures Within(cap, r, asked, m, n + m, active)
  {
    RoundsOver(r, n, m);
    RoundsOver(cap, n, m);
    FewerRounds(r, cap, m);
  }

  lemma {:induction false} OpenBlockersAreFindings(fs: seq<Finding>)
    ensures |OpenBlockers(fs)| <= |fs|
    ensures forall x :: x in OpenBlockers(fs) ==> x in FindingIds(fs)
  {
    if fs != [] {
      OpenBlockersAreFindings(fs[1..]);
      assert IdsOf(fs) == [fs[0].id] + IdsOf(fs[1..]);
    }
  }

  /** An id is among the regressions exactly when an open BLOCKER has it. */
  lemma {:induction false} OpenBlockersExact(fs: seq<Finding>, x: Id)
    ensures x in OpenBlockers(fs) <==>
            exists i :: 0 <= i < |fs| && fs[i].id == x && fs[i].status.Open? && fs[i].severity.Blocker?
  {
    if fs != [] {
      OpenBlockersExact(fs[1..], x);
      assert fs == [fs[0]] + fs[1..];
      forall i | 1 <= i < |fs| ensures fs[i] == fs[1..][i - 1] {
      }
    }
  }

  predicate OpenBlocker(f: Finding) { f.status.Open? && f.severity.Blocker? }

  /** A new open BLOCKER is the last regression; any other finding is none. */
  lemma {:induction false} OpenBlockersSnoc(fs: seq<Finding>, f: Finding)
    ensures OpenBlockers(fs + [f]) == OpenBlockers(fs) + if OpenBlocker(f) then [f.id] else []
  {
    if fs == [] {
      assert fs + [f] == [f];
    } else {
      assert (fs + [f])[0] == fs[0] && (fs + [f])[1..] == fs[1..] + [f];
      OpenBlockersSnoc(fs[1..], f);
    }
  }

  /** The regressions are the ids of the stored open BLOCKERs, each as often as it has rows, in the
      order in which they are stored. */
  lemma {:induction false} OpenBlockersInOrder(fs: seq<Finding>) returns (at: seq<nat>)
    ensures |at| == |OpenBlockers(fs)|
    ensures forall i :: 0 <= i < |at| ==> at[i] < |fs| && OpenBlockers(fs)[i] == fs[at[i]].id
    ensures forall i, j :: 0 <= i < j < |at| ==> at[i] < at[j]
    ensures forall k :: 0 <= k < |fs| ==> (OpenBlocker(fs[k]) <==> k in at)
  {
    at := [];
    if fs != [] {
      var n := |fs| - 1;
      assert fs == fs[..n] + [fs[n]];
      at := OpenBlockersInOrder(fs[..n]);
      OpenBlockersSnoc(fs[..n], fs[n]);
      forall k | 0 <= k < n ensures fs[..n][k] == fs[k] {
      }
      assert n !in at;
      if OpenBlocker(fs[n]) {
        at := at + [n];
      }
    }
  }

  /** Reopening with nothing on screen and nothing in line shows the first stored open BLOCKER, and has
      the others next, in the order in which they are stored. */
  lemma ReopenShowsFirst(s: Session, first: nat)
    requires s.cursor.current.None? && s.cursor.pending == []
    requires first < |s.findings| && OpenBlocker(s.findings[first])
    requires forall k :: 0 <= k < first ==> !OpenBlocker(s.findings[k])
    ensures var c := End(s, ReopenT(s, OpenBlockers(s.findings))).cursor;
            && c.current == Some(s.findings[first].id)
            && c.pending == OpenBlockers(s.findings[first + 1..])
  {
    SkipOthers(s.findings, first);
  }

  lemma {:induction false} SkipOthers(fs: seq<Finding>, first: nat)
    requires first < |fs| && OpenBlocker(fs[first]) && forall k :: 0 <= k < first ==> !OpenBlocker(fs[k])
    ensures OpenBlockers(fs) == [fs[first].id] + OpenBlockers(fs[first + 1..])
  {
    if first > 0 {
      assert forall k :: 0 <= k < first - 1 ==> fs[1..][k] == fs[k + 1];
      SkipOthers(fs[1..], first - 1);
      assert fs[1..][first..] == fs[first + 1..];
    }
  }

  // ── traces ──────────────────────────────────────────────

  /** A write that leaves cursor and findings alone keeps the invariant. */
  lemma SameData(cfg: Config, s: Session, x: Session)
    requires DataInv(cfg, s)
    requires x.cursor == s.cursor && x.findings == s.findings && x.asked == s.asked
    requires x.failCount >= s.failCount
    requires x.status.Active? ==> s.status.Active?
    requires x.stage.QaActiveReopened? ==> s.stage.QaActiveReopened?
    ensures DataInv(cfg, x)
  {
    FewerRounds(Reserve(cfg, x), Reserve(cfg, s), |s.findings|);
  }

  lemma SameDataAll(cfg: Config, s: Session, t: seq<Session>)
    requires DataInv(cfg, s)
    requires forall i :: 0 <= i < |t| ==>
               && t[i].cursor == s.cursor && t[i].findings == s.findings && t[i].asked == s.asked
               && t[i].failCount >= s.failCount
               && (t[i].status.Active? ==> s.status.Active?)
               && (t[i].stage.QaActiveReopened? ==> s.stage.QaActiveReopened?)
    ensures AllData(cfg, t)
  {
    forall i | 0 <= i < |t| ensures DataInv(cfg, t[i]) {
      SameData(cfg, s, t[i]);
    }
  }

  lemma AppendCursor(s: Session, fs: seq<Finding>)
    requires CursorInv(s) && !s.stage.QaActiveReopened?
    ensures CursorInv(s.(findings := s.findings + fs))
  {
    assert IdsOf(s.findings + fs) == IdsOf(s.findings) + IdsOf(fs);
    assert FindingIds(s.findings) <= FindingIds(s.findings + fs);
  }

  lemma AppendWork(cfg: Config, s: Session, fs: seq<Finding>, left: nat)
    requires WorkInv(cfg, s) && s.failCount < Cap(cfg) && (left == Remaining(s.cursor) || left == |fs|)
    ensures Within(Cap(cfg), Reserve(cfg, s), s.asked, left, |s.findings + fs|, s.status.Active?)
  {
    MoreFindings(Cap(cfg), Reserve(cfg, s), s.asked, Remaining(s.cursor), |s.findings|, |fs|, s.status.Active?);
  }

  lemma AppendData(cfg: Config, s: Session, fs: seq<Finding>)
    requires DataInv(cfg, s) && s.failCount < Cap(cfg) && !s.stage.QaActiveReopened?
    ensures DataInv(cfg, s.(findings := s.findings + fs))
  {
    AppendCursor(s, fs);
    AppendWork(cfg, s, fs, Remaining(s.cursor));
  }

  lemma FirstCursorIds(ids: seq<Id>, stored: seq<Finding>, found: seq<Finding>, topN: int)
    requires forall x :: x in ids ==> x in IdsOf(found)
    ensures Ids(FirstCursor(ids, topN)) <= FindingIds(stored + Opened(found))
  {
    FirstCursorPresentsAll(ids, topN);
    assert IdsOf(stored + Opened(found)) == IdsOf(stored) + IdsOf(found);
  }

  lemma FirstCursorRemaining(ids: seq<Id>, topN: int)
    ensures Remaining(FirstCursor(ids, topN)) == |ids|
  {
    FirstCursorPresentsAll(ids, topN);
    assert Remaining(FirstCursor(ids, topN)) == |Presentation(FirstCursor(ids, topN))|;
  }

  function WithFirstCursor(cfg: Config, s: Session, found: seq<Finding>): Session {
    var ids := Prioritize(found);
    s.(findings := s.findings + Opened(found), cursor := FirstCursor(ids, cfg.topN), plan := ids)
  }

  lemma FirstCursorInv(cfg: Config, s: Session, found: seq<Finding>)
    requires !s.stage.QaActiveReopened?
    ensures CursorInv(WithFirstCursor(cfg, s, found))
  {
    var ids := Prioritize(found);
    FirstCursorPresentsAll(ids, cfg.topN);
    PrioritizeMembers(found);
    FirstCursorIds(ids, s.findings, found, cfg.topN);
  }

  lemma FirstCursorWork(cfg: Config, s: Session, found: seq<Finding>)
    requires WorkInv(cfg, s) && s.failCount < Cap(cfg)
    ensures WorkInv(cfg, WithFirstCursor(cfg, s, found))
  {
    var ids := Prioritize(found);
    PrioritizeMembers(found);
    FirstCursorRemaining(ids, cfg.topN);
    AppendWork(cfg, s, Opened(found), |ids|);
  }

  lemma FirstCursorData(cfg: Config, s: Session, found: seq<Finding>)
    requires DataInv(cfg, s) && s.failCount < Cap(cfg) && s.status.Active? && s.stage.Scanning?
    ensures DataInv(cfg, WithFirstCursor(cfg, s, found))
  {
    FirstCursorInv(cfg, s, found);
    FirstCursorWork(cfg, s, found);
  }

  lemma StoredData(cfg: Config, s: Session, fs: seq<Finding>)
    requires DataInv(cfg, s) && s.failCount < Cap(cfg) && s.status.Active? && s.stage.Scanning?
    ensures AllData(cfg, Appends(s, fs))
  {
    forall i | 0 <= i < |fs| ensures DataInv(cfg, Appends(s, fs)[i]) {
      AppendData(cfg, s, fs[..i + 1]);
    }
  }

  lemma FoundData(cfg: Config, s: Session, found: seq<Finding>)
    requires DataInv(cfg, s) && s.failCount < Cap(cfg) && s.status.Active? && s.stage.Scanning?
    ensures AllData(cfg, FoundT(cfg, s, found))
  {
    StoredData(cfg, s, Opened(found));
    FirstCursorData(cfg, s, found);
    var d := WithFirstCursor(cfg, s, found);
    SameData(cfg, d, d.(stage := QaActive));
  }

  lemma EmitData(cfg: Config, s: Session, e: Env)
    requires DataInv(cfg, s)
    ensures AllData(cfg, EmitT(s, e))
  {
    SameDataAll(cfg, s, EmitT(s, e));
  }

  lemma ScanRunData(cfg: Config, s: Session, e: Env)
    requires DataInv(cfg, s) && s.failCount < Cap(cfg) && s.status.Active? && s.stage.Scanning?
    ensures AllData(cfg, ScanRunT(cfg, s, e))
  {
    var a := Log(s, PillarCall);
    var b := Log(a, ResponderCall);
    SameData(cfg, s, a);
    SameData(cfg, s, b);
    hide DataInv, FoundT, Prioritize;
    if e.scan.Scanned? {
      FoundData(cfg, b, e.scan.found);
      DataCat(cfg, [a, b], FoundT(cfg, b, e.scan.found));
    } else if e.scan.ScanStores? {
      StoredData(cfg, b, Opened(e.scan.stored));
      DataCat(cfg, [a, b], Appends(b, Opened(e.scan.stored)));
    } else {
      SameDataAll(cfg, s, ScanRunT(cfg, s, e));
    }
  }

  lemma ScanData(cfg: Config, s: Session, e: Env)
    requires DataInv(cfg, s) && s.failCount < Cap(cfg) && s.status.Active?
    ensures AllData(cfg, ScanT(cfg, s, e))
  {
    if s.stage.Scanning? || s.stage.SubjectConfirmation? {
      var s0 := s.(stage := Scanning);
      var t := ScanRunT(cfg, s0, e);
      SameData(cfg, s, s0);
      ScanRunData(cfg, s0, e);
      DataCat(cfg, [s0], t);
      if e.scan.Scanned? {
        EmitData(cfg, End(s0, t), e);
        DataCat(cfg, [s0] + t, EmitT(End(s0, t), e));
      } else {
        assert [s0] + t + [] == [s0] + t;
      }
    }
  }

  lemma RescanData(cfg: Config, s: Session, e: Env)
    requires DataInv(cfg, s) && s.failCount < Cap(cfg) && s.status.Active? && s.stage.QaActive?
    ensures AllData(cfg, RescanT(cfg, s, e))
  {
    var t := RescanStartT(s);
    assert DataInv(cfg, t[0]);
    SameData(cfg, t[0], t[1]);
    ScanData(cfg, t[1], e);
    DataCat(cfg, t, ScanT(cfg, t[1], e));
  }

  /** Moving on to the next question: order and ids are kept, the budget is not exceeded. */
  lemma AdvanceData(cfg: Config, s: Session, n: nat)
    requires DataInv(cfg, s) && s.status.Active? && !s.stage.QaActiveReopened?
    requires n <= if s.cursor.current.Some? then 1 else 0
    ensures DataInv(cfg, s.(cursor := Advanced(s.cursor), asked := s.asked + n))
  {
    AdvancedKeepsIds(s.cursor);
  }

  lemma PullData(cfg: Config, s: Session)
    requires DataInv(cfg, s) && !s.stage.QaActiveReopened?
    ensures DataInv(cfg, s.(cursor := Pulled(s.cursor, cfg.topN)))
  {
    PulledKeepsIds(s.cursor, cfg.topN);
  }

  lemma RestatusData(cfg: Config, s: Session, id: Id, st: FindingStatus)
    requires DataInv(cfg, s) && !s.stage.QaActiveReopened?
    ensures DataInv(cfg, s.(findings := Restatus(s.findings, id, st)))
  {
    assert IdsOf(Restatus(s.findings, id, st)) == IdsOf(s.findings);
  }

  lemma MoreData(cfg: Config, s: Session)
    requires DataInv(cfg, s) && s.status.Active? && s.stage.QaActive?
    ensures AllData(cfg, QaReplyT(cfg, s, More).0)
  {
    var s1 := s.(cursor := Pulled(s.cursor, cfg.topN));
    PullData(cfg, s);
    AdvanceData(cfg, s1, 0);
    assert s1.(cursor := Advanced(s1.cursor), asked := s1.asked + 0) == s1.(cursor := Advanced(s1.cursor));
  }

  lemma AnswerData(cfg: Config, s: Session, i: Intent)
    requires DataInv(cfg, s) && s.status.Active? && s.stage.QaActive?
    requires !i.More? && !i.Done? && !i.ForceClose? && !i.Question? && s.cursor.current.Some?
    ensures AllData(cfg, QaReplyT(cfg, s, i).0)
  {
    if StatusFor(i).Some? {
      var s1 := s.(findings := Restatus(s.findings, s.cursor.current.value, StatusFor(i).value));
      RestatusData(cfg, s, s.cursor.current.value, StatusFor(i).value);
      AdvanceData(cfg, s1, 1);
      assert QaReplyT(cfg, s, i).0 == [s1, s1.(cursor := Advanced(s1.cursor), asked := s1.asked + 1)];
    } else {
      AdvanceData(cfg, s, 1);
      assert QaReplyT(cfg, s, i).0 == [s.(cursor := Advanced(s.cursor), asked := s.asked + 1)];
    }
  }

  lemma QaReplyData(cfg: Config, s: Session, i: Intent)
    requires DataInv(cfg, s) && s.status.Active? && s.stage.QaActive?
    ensures AllData(cfg, QaReplyT(cfg, s, i).0)
    ensures DataInv(cfg, End(s, QaReplyT(cfg, s, i).0))
  {
    if i.More? {
      MoreData(cfg, s);
    } else if !i.Done? && !i.ForceClose? && s.cursor.current.Some? && !i.Question? {
      AnswerData(cfg, s, i);
    }
  }

  /** What holds once merge and gate have run: a counted failure has freed one reopening. */
  ghost predicate AfterGate(cfg: Config, s: Session) {
    && DataInv(cfg, s)
    && !s.stage.QaActiveReopened?
    && (s.status.Active? && s.verdict == Some(Fail) && s.failCount < Cap(cfg) ==>
          Within(Cap(cfg), Reserve(cfg, s), s.asked, Remaining(s.cursor) + |s.findings|, |s.findings|, true))
  }

  lemma GateData(cfg: Config, s: Session, forced: bool, e: Env)
    requires DataInv(cfg, s) && !s.stage.QaActiveReopened? && s.failCount < Cap(cfg) && VerdictRemembersFailures(s)
    ensures AllData(cfg, GateT(s, forced, e))
    ensures !GateAborts(e.gate) ==> AfterGate(cfg, End(s, GateT(s, forced, e)))
  {
    var t := GateT(s, forced, e);
    SameDataAll(cfg, s, t);
    var x := End(s, t);
    if !GateAborts(e.gate) && x.status.Active? && x.verdict == Some(Fail) && x.failCount < Cap(cfg) {
      assert x.failCount == s.failCount + 1;
      FewerRounds(Reserve(cfg, x), Reserve(cfg, s), |s.findings|);
    }
  }

  lemma ReopenedCursor(c: CursorData, regs: seq<Id>)
    requires regs != []
    ensures var d := Reopened(c, regs);
            && d.rescan && d.current.Some?
            && CurrentSeq(d) + d.pending == CurrentSeq(c) + (regs + c.pending)
            && d.done == c.done && d.deferred == c.deferred
            && Remaining(d) == Remaining(c) + |regs|
            && (forall x :: x in Ids(d) <==> x in Ids(c) || x in regs)
            && (forall x :: x in regs ==> d.current == Some(x) || x in d.pending)
  {
    var q := c.(rescan := true, pending := regs + c.pending);
    forall x: Id ensures x in Ids(q) <==> x in Ids(c) || x in regs {
      PresentationMembers(c, x);
      PresentationMembers(q, x);
    }
    AdvancedKeepsIds(q);
    assert q.pending == [q.pending[0]] + q.pending[1..];
    forall x | x in regs ensures Reopened(c, regs).current == Some(x) || x in Reopened(c, regs).pending {
      assert x in q.pending;
    }
  }

  lemma ReopenData(cfg: Config, s: Session)
    requires AfterGate(cfg, s) && s.verdict == Some(Fail)
    requires OpenBlockers(s.findings) != [] && s.failCount < cfg.maxFails
    ensures AllData(cfg, ReopenT(s, OpenBlockers(s.findings)))
    ensures Asking(End(s, ReopenT(s, OpenBlockers(s.findings))))
  {
    var regs := OpenBlockers(s.findings);
    OpenBlockersAreFindings(s.findings);
    ReopenedCursor(s.cursor, regs);
    var t := ReopenT(s, regs);
    assert DataInv(cfg, t[0]) && Asking(t[0]);
  }

  lemma CloseData(cfg: Config, s: Session, e: Env)
    requires DataInv(cfg, s) && !s.stage.QaActiveReopened?
    ensures AllData(cfg, CloseT(s, e)) && AllData(cfg, DeliverT(s, e))
  {
    SameDataAll(cfg, s, CloseT(s, e));
    SameDataAll(cfg, s, DeliverT(s, e));
  }

  lemma AfterGateData(cfg: Config, s: Session, forced: bool, e: Env)
    requires AfterGate(cfg, s)
    ensures AllData(cfg, AfterGateT(cfg, s, forced, e))
  {
    if s.verdict != Some(Fail) || forced {
      CloseData(cfg, s, e);
    } else if OpenBlockers(s.findings) == [] {
      var a := s.(verdict := Some(ForcedPartial), stage := Closing);
      SameData(cfg, s, a);
      CloseData(cfg, a, e);
      DataCat(cfg, [a], CloseT(a, e));
    } else if s.failCount < cfg.maxFails {
      var t := ReopenT(s, OpenBlockers(s.findings));
      ReopenData(cfg, s);
      EmitData(cfg, End(s, t), e);
      DataCat(cfg, t, EmitT(End(s, t), e));
    } else {
      var a := s.(verdict := Some(ForcedPartial));
      SameData(cfg, s, a);
      CloseData(cfg, a, e);
      DataCat(cfg, [a], CloseT(a, e));
    }
  }

  lemma ChainData(cfg: Config, s: Session, forced: bool, e: Env)
    requires DataInv(cfg, s) && BeforeGate(cfg, s) && !s.stage.QaActiveReopened?
    ensures AllData(cfg, ChainT(cfg, s, forced, e))
  {
    var t := MergeT(s, e);
    SameDataAll(cfg, s, t);
    if !MergeAborts(s, e) {
      var s1 := End(s, t);
      GatedData(cfg, s1, forced, e);
      DataCat(cfg, t, GatedT(cfg, s1, forced, e));
    }
  }

  lemma GatedData(cfg: Config, s: Session, forced: bool, e: Env)
    requires DataInv(cfg, s) && !s.stage.QaActiveReopened? && s.failCount < Cap(cfg) && VerdictRemembersFailures(s)
    ensures AllData(cfg, GatedT(cfg, s, forced, e))
  {
    var t := GateT(s, forced, e);
    GateData(cfg, s, forced, e);
    if !GateAborts(e.gate) {
      AfterGateData(cfg, End(s, t), forced, e);
      DataCat(cfg, t, AfterGateT(cfg, End(s, t), forced, e));
    }
  }

  // ── replies, steps, runs ────────────────────────────────

  ghost predicate Inv(cfg: Config, s: Session) {
    GateInv(cfg, s) && DataInv(cfg, s)
  }

  lemma ActData(cfg: Config, s: Session, act: Action, e: Env)
    requires Inv(cfg, s) && s.status.Active? && s.stage.QaActive?
    ensures AllData(cfg, ActT(cfg, s, act, e))
  {
    match act
    case EmitNext => EmitData(cfg, s, e);
    case ProposeClose => SameData(cfg, s, s.(stage := AwaitingCloseConfirmation));
    case GoForceClose => ChainData(cfg, s, true, e);
    case NoOp =>
  }

  lemma QaData(cfg: Config, s: Session, r: Reply, e: Env)
    requires Inv(cfg, s) && s.status.Active? && (s.stage.QaActive? || s.stage.QaActiveReopened?)
    ensures AllData(cfg, QaT(cfg, s, r, e))
  {
    var s0 := s.(stage := QaActive);
    SameData(cfg, s, s0);
    match r.supplement
    case Unreadable =>
    case Appended =>
      RescanData(cfg, s0, e);
      DataCat(cfg, [s0], RescanT(cfg, s0, e));
    case NotMaterial =>
      QaReplyData(cfg, s0, r.intent);
      QaReplyGate(cfg, s0, r.intent);
      var (t, act) := QaReplyT(cfg, s0, r.intent);
      ActData(cfg, End(s0, t), act, e);
      DataCat(cfg, [s0], t);
      DataCat(cfg, [s0] + t, ActT(cfg, End(s0, t), act, e));
  }

  lemma PullAtCloseData(cfg: Config, s: Session, e: Env)
    requires DataInv(cfg, s) && s.status.Active? && s.stage.AwaitingCloseConfirmation?
    ensures AllData(cfg, PullAtCloseT(cfg, s, e))
  {
    if Take(s.cursor.deferred, cfg.topN) != [] {
      var t := PulledT(cfg, s);
      PulledData(cfg, s);
      EmitData(cfg, End(s, t), e);
      DataCat(cfg, t, EmitT(End(s, t), e));
    }
  }

  lemma PulledData(cfg: Config, s: Session)
    requires DataInv(cfg, s) && s.status.Active? && s.stage.AwaitingCloseConfirmation?
    ensures AllData(cfg, PulledT(cfg, s))
  {
    var n := if s.cursor.current.Some? then 1 else 0;
    var p := s.(cursor := Pulled(s.cursor, cfg.topN));
    PullData(cfg, s);
    AdvanceData(cfg, p, n);
    var a := p.(cursor := Advanced(p.cursor), asked := p.asked + n);
    assert PulledT(cfg, s)[0] == a;
    SameData(cfg, a, a.(stage := QaActive));
  }

  lemma ConfirmData(cfg: Config, s: Session, i: Intent, e: Env)
    requires Inv(cfg, s) && s.status.Active? && s.stage.AwaitingCloseConfirmation?
    ensures AllData(cfg, ConfirmT(cfg, s, i, e))
  {
    if i.Accept? || i.Done? || i.PickA? {
      var a := s.(stage := Merging);
      SameData(cfg, s, a);
      ChainData(cfg, a, false, e);
      DataCat(cfg, [a], ChainT(cfg, a, false, e));
    } else if i.ForceClose? {
      ChainData(cfg, s, true, e);
    } else if i.More? || i.PickB? {
      PullAtCloseData(cfg, s, e);
    }
  }

  lemma BusyData(cfg: Config, s: Session, e: Env)
    requires Inv(cfg, s) && s.status.Active? && BusyKey(s.stage).Some?
    ensures AllData(cfg, BusyT(cfg, s, e))
  {
    if BusyKey(s.stage).value !in s.calls {
      if s.stage.Scanning? {
        ScanData(cfg, s, e);
      } else if s.stage.Merging? {
        SameDataAll(cfg, s, MergeT(s, e));
      } else if s.stage.FinalGating? {
        SameDataAll(cfg, s, GateT(s, false, e));
      } else {
        CloseData(cfg, s, e);
      }
    }
  }

  lemma ReplyData(cfg: Config, s: Session, r: Reply, e: Env)
    requires Inv(cfg, s) && s.status.Active?
    ensures AllData(cfg, ReplyT(cfg, s, r, e))
  {
    match s.stage
    case AwaitingMaterialConfirm => SameDataAll(cfg, s, MaterialT(s, r, e));
    case SubjectConfirmation => SubjectData(cfg, s, r, e);
    case QaActive => QaData(cfg, s, r, e);
    case QaActiveReopened => QaData(cfg, s, r, e);
    case AwaitingCloseConfirmation => ConfirmData(cfg, s, r.intent, e);
    case _ =>
      if BusyKey(s.stage).Some? {
        BusyData(cfg, s, e);
      } else {
        ChainData(cfg, s, false, e);
      }
  }

  lemma SubjectData(cfg: Config, s: Session, r: Reply, e: Env)
    requires Inv(cfg, s) && s.status.Active? && s.stage.SubjectConfirmation?
    ensures AllData(cfg, SubjectT(cfg, s, r, e))
  {
    if r.newMaterial {
      SameDataAll(cfg, s, SubjectT(cfg, s, r, e));
    } else if r.picksSubject {
      var a := s.(stage := Scanning);
      SameData(cfg, s, a);
      ScanData(cfg, a, e);
      DataCat(cfg, [a], ScanT(cfg, a, e));
    }
  }

  lemma StepInv(cfg: Config, s: Session, e: Event)
    requires Inv(cfg, s)
    ensures forall i :: 0 <= i < |StepT(cfg, s, e)| ==> Inv(cfg, StepT(cfg, s, e)[i])
    ensures Inv(cfg, Step(cfg, s, e))
  {
    StepGate(cfg, s, e);
    if s.status.Active? {
      ReplyData(cfg, s, e.reply, e.env);
    }
  }

  lemma {:induction false} ExecInv(cfg: Config, s: Session, es: seq<Event>)
    requires Inv(cfg, s)
    ensures Inv(cfg, Exec(cfg, s, es))
    decreases |es|
  {
    if es != [] {
      StepInv(cfg, s, es[0]);
      ExecInv(cfg, Step(cfg, s, es[0]), es[1..]);
    }
  }

  lemma FreshInv(cfg: Config, s: Session)
    requires Fresh(s)
    ensures Inv(cfg, s)
  {
    assert Presentation(EMPTY_CURSOR) == [];
  }

  // ── main results ────────────────────────────────────────

  /** At most Cap questions per stored finding are ever advanced past, rescans, cuts and
      re-driven messages included. */
  lemma BoundedWork(cfg: Config, s: Session, es: seq<Event>)
    requires Fresh(s)
    ensures var x := Exec(cfg, s, es); x.asked <= Cap(cfg) * |x.findings|
  {
    FreshInv(cfg, s);
    ExecInv(cfg, s, es);
    RoundsProduct(Cap(cfg), |Exec(cfg, s, es).findings|);
  }

  /** The cursor names stored findings only. */
  lemma OnlyStoredFindings(cfg: Config, s: Session, es: seq<Event>)
    requires Fresh(s)
    ensures var x := Exec(cfg, s, es); Ids(x.cursor) <= FindingIds(x.findings)
  {
    FreshInv(cfg, s);
    ExecInv(cfg, s, es);
  }

  /** A reopened session has a question on screen that names a stored finding, and every open
      BLOCKER is on screen or next in line; so the next question is emitted, unless that raises. */
  lemma ReopenCompleteness(cfg: Config, s: Session, es: seq<Event>, e: Env)
    requires Fresh(s)
    ensures var x := Exec(cfg, s, es);
            x.status.Active? && x.stage.QaActiveReopened? ==> Asking(x) && (EmitT(x, e) == [] <==> e.emit.Raises?)
  {
    FreshInv(cfg, s);
    ExecInv(cfg, s, es);
    AskingEmits(Exec(cfg, s, es), e);
  }

  lemma AskingEmits(s: Session, e: Env)
    requires Asking(s) ==> Ids(s.cursor) <= FindingIds(s.findings)
    ensures Asking(s) ==> (EmitT(s, e) == [] <==> e.emit.Raises?)
  {
    if Asking(s) {
      PresentationMembers(s.cursor, s.cursor.current.value);
    }
  }
}
