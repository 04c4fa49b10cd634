/** A whole review from the material gate to delivery, for every list of findings. */
module Walkthrough {
  import opened Models
  import opened Scan
  import opened Protocol
  import opened Verdicts
  import opened Answers
  import opened Wedges

  /** Every model call and the delivery succeed, the scan finds `found`, and the gate is content. */
  function Fair(found: seq<Finding>): Env {
    Env(Fine, Scanned(found), Fine, Fine, GateSays(false, false, RawReady), Fine, true)
  }

  function Said(r: Reply, found: seq<Finding>): Event { Event(r, Fair(found), None) }

  const START := QUIET.(material := StartReview)
  const PICK := QUIET.(picksSubject := true)
  const YES := QUIET.(intent := Accept)

  function Yeses(n: nat, found: seq<Finding>): seq<Event> {
    if n == 0 then [] else [Said(YES, found)] + Yeses(n - 1, found)
  }

  lemma {:induction false} ExecCat(cfg: Config, s: Session, es: seq<Event>, fs: seq<Event>)
    ensures Exec(cfg, s, es + fs) == Exec(cfg, Exec(cfg, s, es), fs)
    decreases |es|
  {
    if es == [] {
      assert es + fs == fs;
    } else {
      assert (es + fs)[0] == es[0] && (es + fs)[1..] == es[1..] + fs;
      ExecCat(cfg, Step(cfg, s, es[0]), es[1..], fs);
    }
  }

  lemma ExecOne(cfg: Config, s: Session, e: Event)
    ensures Exec(cfg, s, [e]) == Step(cfg, s, e)
  {
    assert [e][1..] == [];
  }

  // ── one step at a time ──────────────────────────────────

  /** What the steps of the dialogue leave alone. */
  predicate SameRound(s: Session, x: Session) {
    x.status == s.status && x.failCount == s.failCount && x.verdict == s.verdict && x.roundNo == s.roundNo
    && x.material == s.material
  }

  lemma Started(cfg: Config, s: Session, found: seq<Finding>)
    requires s.status.Active? && s.stage.AwaitingMaterialConfirm?
    ensures var x := Step(cfg, s, Said(START, found));
            SameRound(s, x) && x.stage.SubjectConfirmation? && x.findings == s.findings
  {
  }

  lemma FoundEnd(cfg: Config, s: Session, found: seq<Finding>)
    ensures var x := End(s, FoundT(cfg, s, found));
            && SameRound(s, x) && x.stage.QaActive?
            && x.findings == s.findings + Opened(found)
            && x.cursor == FirstCursor(Prioritize(found), cfg.topN)
  {
  }

  lemma ScanRunEnd(cfg: Config, s: Session, found: seq<Finding>)
    ensures var b := Log(Log(s, PillarCall), ResponderCall);
            End(s, ScanRunT(cfg, s, Fair(found))) == End(b, FoundT(cfg, b, found))
  {
    var a := Log(s, PillarCall);
    var b := Log(a, ResponderCall);
    EndCat(s, [a, b], FoundT(cfg, b, found));
  }

  lemma Picked(cfg: Config, s: Session, found: seq<Finding>)
    requires s.status.Active? && s.stage.SubjectConfirmation?
    ensures var x := Step(cfg, s, Said(PICK, found));
            && SameRound(s, x) && x.stage.QaActive?
            && x.findings == s.findings + Opened(found)
            && x.cursor == FirstCursor(Prioritize(found), cfg.topN)
  {
    var e := Fair(found);
    var s0 := s.(stage := Scanning);
    var t := ScanRunT(cfg, s0, e);
    var y := End(s0, t);
    ScanRunEnd(cfg, s0, found);
    FoundEnd(cfg, Log(Log(s0, PillarCall), ResponderCall), found);
    EndCat(s0, [s0] + t, EmitT(y, e));
    EndCat(s0, [s0], t);
    EndCat(s, [s0], ScanT(cfg, s0, e));
    assert SubjectT(cfg, s, PICK, e) == [s0] + ScanT(cfg, s0, e);
  }

  lemma AcceptedOne(cfg: Config, s: Session, found: seq<Finding>)
    requires s.status.Active? && s.stage.QaActive? && s.cursor.current.Some?
    ensures var x := Step(cfg, s, Said(YES, found));
            && SameRound(s, x)
            && x.cursor == Advanced(s.cursor)
            && x.findings == Restatus(s.findings, s.cursor.current.value, Accepted)
            && x.stage == if s.cursor.pending == [] then AwaitingCloseConfirmation else QaActive
  {
    QaEnd(cfg, s, YES, Fair(found));
  }

  /** Findings with these ids are accepted, all others are as they were. */
  ghost predicate AcceptedOnly(fs: seq<Finding>, gs: seq<Finding>, ids: seq<Id>) {
    && |gs| == |fs|
    && forall i :: 0 <= i < |fs| ==> gs[i] == if fs[i].id in ids then fs[i].(status := Accepted) else fs[i]
  }

  lemma AcceptedMore(fs: seq<Finding>, gs: seq<Finding>, id: Id, ids: seq<Id>)
    requires AcceptedOnly(Restatus(fs, id, Accepted), gs, ids)
    ensures AcceptedOnly(fs, gs, [id] + ids)
  {
  }

  function Line(c: CursorData): seq<Id> { CurrentSeq(c) + c.pending }

  /** All questions on screen and in line are done and accepted, and nothing else has happened. */
  ghost predicate LineAccepted(s: Session, x: Session) {
    && SameRound(s, x) && x.stage.AwaitingCloseConfirmation?
    && x.cursor == s.cursor.(current := None, pending := [], done := s.cursor.done + Line(s.cursor))
    && AcceptedOnly(s.findings, x.findings, Line(s.cursor))
  }

  lemma LastAccepted(s: Session, x: Session)
    requires s.cursor.current.Some? && s.cursor.pending == []
    requires SameRound(s, x) && x.stage.AwaitingCloseConfirmation? && x.cursor == Advanced(s.cursor)
    requires x.cursor.done == s.cursor.done + [s.cursor.current.value]
    requires x.findings == Restatus(s.findings, s.cursor.current.value, Accepted)
    ensures LineAccepted(s, x)
  {
    var id := s.cursor.current.value;
    assert Line(s.cursor) == [id];
    assert AcceptedOnly(x.findings, x.findings, []);
    AcceptedMore(s.findings, x.findings, id, []);
  }

  lemma MoreAccepted(s: Session, x: Session, y: Session)
    requires s.cursor.current.Some? && s.cursor.pending != []
    requires SameRound(s, x) && x.cursor == Advanced(s.cursor)
    requires x.cursor.done == s.cursor.done + [s.cursor.current.value]
    requires x.findings == Restatus(s.findings, s.cursor.current.value, Accepted)
    requires LineAccepted(x, y)
    ensures LineAccepted(s, y)
  {
    var id := s.cursor.current.value;
    assert Line(x.cursor) == s.cursor.pending && Line(s.cursor) == [id] + s.cursor.pending;
    AcceptedMore(s.findings, y.findings, id, s.cursor.pending);
    assert (s.cursor.done + [id]) + s.cursor.pending == s.cursor.done + Line(s.cursor);
  }

  /** Accepting everything on screen and in line, one question after the other. */
  lemma {:induction false} AcceptedAll(cfg: Config, s: Session, found: seq<Finding>)
    requires s.status.Active? && s.stage.QaActive? && s.cursor.current.Some? && Distinct(Presentation(s.cursor))
    ensures LineAccepted(s, Exec(cfg, s, Yeses(|Line(s.cursor)|, found)))
    decreases |s.cursor.pending|
  {
    hide Step, Exec, Yeses, Distinct, Presentation, LineAccepted, Restatus, Said;
    var n := |Line(s.cursor)|;
    var x := Step(cfg, s, Said(YES, found));
    AcceptedOne(cfg, s, found);
    FirstOfLine(s.cursor);
    YesesStep(cfg, s, n, found);
    if s.cursor.pending == [] {
      NoYeses(cfg, x, found);
      LastAccepted(s, x);
    } else {
      AcceptedAll(cfg, x, found);
      MoreAccepted(s, x, Exec(cfg, x, Yeses(n - 1, found)));
    }
  }

  lemma NoYeses(cfg: Config, s: Session, found: seq<Finding>)
    ensures Exec(cfg, s, Yeses(0, found)) == s
  {
  }

  lemma YesesStep(cfg: Config, s: Session, n: nat, found: seq<Finding>)
    requires n > 0
    ensures Exec(cfg, s, Yeses(n, found)) == Exec(cfg, Step(cfg, s, Said(YES, found)), Yeses(n - 1, found))
  {
    assert ([Said(YES, found)] + Yeses(n - 1, found))[1..] == Yeses(n - 1, found);
  }

  /** With distinct ids advancing appends the current id to done, and stays distinct. */
  lemma FirstOfLine(c: CursorData)
    requires c.current.Some? && Distinct(Presentation(c))
    ensures Advanced(c).done == c.done + [c.current.value]
    ensures Distinct(Presentation(Advanced(c)))
  {
    AdvancedKeepsOrder(c);
    var p := Presentation(c);
    assert p[|c.done|] == c.current.value;
    assert forall i :: 0 <= i < |c.done| ==> p[i] == c.done[i];
  }

  lemma ClosedAtLast(cfg: Config, s: Session, found: seq<Finding>)
    requires s.status.Active? && s.stage.AwaitingCloseConfirmation? && s.material
    ensures var x := Step(cfg, s, Said(YES, found));
            && x.status.Closed? && x.stage.Closed? && x.verdict == Some(Ready) && x.roundNo == s.roundNo
            && x.findings == s.findings && x.cursor == s.cursor
  {
    var e := Fair(found);
    var a := s.(stage := Merging);
    ChainOutcome(cfg, a, false, e);
    OtherOrigins(cfg, a, false, e);
    ChainKeeps(cfg, a, false, e);
    ChainKeepsCursor(cfg, a, found);
    assert StepT(cfg, s, Said(YES, found)) == [a] + ChainT(cfg, a, false, e);
    EndCat(s, [a], ChainT(cfg, a, false, e));
  }

  lemma ChainKeepsCursor(cfg: Config, s: Session, found: seq<Finding>)
    requires s.material
    ensures End(s, ChainT(cfg, s, false, Fair(found))).cursor == s.cursor
  {
    var e := Fair(found);
    var t1 := MergeT(s, e);
    var s1 := End(s, t1);
    var t2 := GateT(s1, false, e);
    var s2 := End(s1, t2);
    assert s2.verdict == Some(Ready) && s2.cursor == s.cursor;
    EndCat(s, t1, GatedT(cfg, s1, false, e));
    EndCat(s1, t2, AfterGateT(cfg, s2, false, e));
  }

  // ── the whole review ────────────────────────────────────

  /** Start, choose the subject, accept every question shown, confirm the close. */
  function Script(n: nat, found: seq<Finding>): seq<Event> {
    [Said(START, found)] + ([Said(PICK, found)] + (Yeses(n, found) + [Said(YES, found)]))
  }

  /** A requester who accepts every finding shown gets the session closed in one round, READY, with
      exactly the findings shown accepted, in the order of their priority, and the rest deferred. */
  lemma AcceptingClosesSession(cfg: Config, found: seq<Finding>)
    requires found != [] && cfg.topN > 0 && Distinct(Prioritize(found))
    ensures var ids := Prioritize(found);
            var shown := Take(ids, cfg.topN);
            var x := Exec(cfg, INGESTED.(stage := AwaitingMaterialConfirm), Script(|shown|, found));
            && x.status.Closed? && x.stage.Closed? && x.verdict == Some(Ready) && x.roundNo == 1
            && x.cursor.done == shown && x.cursor.deferred == Drop(ids, cfg.topN)
            && AcceptedOnly(Opened(found), x.findings, shown)
  {
    var ids := Prioritize(found);
    var shown := Take(ids, cfg.topN);
    hide Step, Exec, Script, Distinct, Prioritize, Yeses;
    var s := INGESTED.(stage := AwaitingMaterialConfirm);
    var s1 := Step(cfg, s, Said(START, found));
    var s2 := Step(cfg, s1, Said(PICK, found));
    var s3 := Exec(cfg, s2, Yeses(|shown|, found));
    Started(cfg, s, found);
    Picked(cfg, s1, found);
    PrioritizeMembers(found);
    FirstCursorPresentsAll(ids, cfg.topN);
    assert Line(s2.cursor) == shown;
    AcceptedAll(cfg, s2, found);
    ClosedAtLast(cfg, s3, found);
    assert s2.findings == Opened(found);
    ScriptRun(cfg, s, |shown|, found);
  }

  lemma ScriptRun(cfg: Config, s: Session, n: nat, found: seq<Finding>)
    ensures var s2 := Step(cfg, Step(cfg, s, Said(START, found)), Said(PICK, found));
            Exec(cfg, s, Script(n, found)) == Step(cfg, Exec(cfg, s2, Yeses(n, found)), Said(YES, found))
  {
    var s1 := Step(cfg, s, Said(START, found));
    var s2 := Step(cfg, s1, Said(PICK, found));
    var rest := Yeses(n, found) + [Said(YES, found)];
    ExecCat(cfg, s, [Said(START, found)], [Said(PICK, found)] + rest);
    ExecOne(cfg, s, Said(START, found));
    ExecCat(cfg, s1, [Said(PICK, found)], rest);
    ExecOne(cfg, s1, Said(PICK, found));
    ExecCat(cfg, s2, Yeses(n, found), [Said(YES, found)]);
    ExecOne(cfg, Exec(cfg, s2, Yeses(n, found)), Said(YES, found));
  }
}
