/** What one review session persists, and what each handler does to it.

    A handler is specified by its *trace*: the list of persisted session values, one per
    write to the database row, cursor.json, annotations.jsonl, normalized.md or the llm_calls
    table, in the order the writes happen. A handler that is cut short, because the process
    dies or a storage operation raises, leaves some prefix of the trace behind, so a property
    of every element of a trace holds across cuts. Answers of the language model and of
    delivery are inputs (`Env`); they include those on which the handler raises. */
module Protocol {
  import opened Models
  import opened Scan

  datatype Call = TopicCall | PillarCall | ResponderCall | EmitCall | MergeCall | GateCall | SummaryCall

  /** The session row, whether normalized.md exists, its cursor, findings and llm_calls. Two history
      fields record facts the program does not store: `asked` counts the questions advanced past,
      and `plan` is the prioritised list of the latest scan that got as far as its cursor. */
  datatype Session = Session(
    stage: Stage, status: Status, roundNo: int, failCount: nat, verdict: Option<Verdict>,
    material: bool, cursor: CursorData, findings: seq<Finding>, calls: seq<Call>,
    asked: nat, plan: seq<Id>)

  datatype Config = Config(topN: int, maxFails: int)

  /** Gate failures after which a session can no longer be reopened. */
  function Cap(cfg: Config): (m: nat)
    ensures m >= 1
  {
    if cfg.maxFails > 1 then cfg.maxFails else 1
  }

  // ── inputs ──────────────────────────────────────────────

  datatype MaterialReply = CancelReview | StartReview | OtherReply
  datatype Supplement = NotMaterial | Unreadable | Appended

  /** One message, as each stage would read it. */
  datatype Reply = Reply(
    material: MaterialReply,   // at the material gate
    newMaterial: bool,         // at subject confirmation: a URL or a long text
    picksSubject: bool,        // at subject confirmation: resolves to a subject
    supplement: Supplement,    // during Q&A
    intent: Intent)

  /** A call of the language model: a terminal failure, which the dispatcher records; any other
      exception before the call is logged (such as an empty list of choices) or after (such as an
      answer of the wrong shape), which aborts the handler; or an answer that can be used. */
  datatype Answer = Down | Raises | Breaks | Fine

  /** A scan: a terminal failure before the first call is logged, after it, or after the second;
      another exception after some logged calls, or once the findings are stored (they may not be
      sortable); or success. */
  datatype ScanAnswer =
    | NoAnswer | OneAnswer | TwoAnswers
    | ScanRaises(calls: nat) | ScanStores(stored: seq<Finding>)
    | Scanned(found: seq<Finding>)

  datatype RawVerdict = RawReady | RawOpenItems | RawFail

  /** Down and garbled are the terminal failures, before and after the call is logged. */
  datatype GateAnswer =
    | GateDown | GateGarbled | GateRaises | GateBreaks
    | GateSays(cswFail: bool, intentFail: bool, raw: RawVerdict)

  datatype Env = Env(
    topic: Answer, scan: ScanAnswer, emit: Answer, merge: Answer,
    gate: GateAnswer, summary: Answer, delivered: bool)

  // ── traces ──────────────────────────────────────────────

  function End(s: Session, t: seq<Session>): Session {
    if t == [] then s else t[|t| - 1]
  }

  lemma EndCat(s: Session, t: seq<Session>, u: seq<Session>)
    ensures End(s, t + u) == End(End(s, t), u)
  {
    if u == [] {
      assert t + u == t;
    }
  }

  function Log(s: Session, c: Call): Session { s.(calls := s.calls + [c]) }

  function Failing(s: Session, at: Stage): Session { s.(stage := at, status := Status.Failed) }

  function Restatus(fs: seq<Finding>, id: Id, st: FindingStatus): (r: seq<Finding>)
    ensures |r| == |fs|
    ensures forall i :: 0 <= i < |fs| ==> r[i] == if fs[i].id == id then fs[i].(status := st) else fs[i]
  {
    seq(|fs|, i requires 0 <= i < |fs| => if fs[i].id == id then fs[i].(status := st) else fs[i])
  }

  function OpenBlockers(fs: seq<Finding>): seq<Id> {
    if fs == [] then []
    else (if fs[0].status.Open? && fs[0].severity.Blocker? then [fs[0].id] else []) + OpenBlockers(fs[1..])
  }

  function Opened(fs: seq<Finding>): (r: seq<Finding>)
    ensures |r| == |fs|
    ensures forall i :: 0 <= i < |fs| ==> r[i] == fs[i].(status := Open)
  {
    seq(|fs|, i requires 0 <= i < |fs| => fs[i].(status := Open))
  }

  /** Findings are appended one line at a time. */
  function Appends(s: Session, fs: seq<Finding>): (t: seq<Session>)
    ensures |t| == |fs|
    ensures forall i :: 0 <= i < |t| ==> t[i] == s.(findings := s.findings + fs[..i + 1])
  {
    seq(|fs|, i requires 0 <= i < |fs| => s.(findings := s.findings + fs[..i + 1]))
  }

  /** `_emit_next_finding`. */
  function EmitT(s: Session, e: Env): seq<Session> {
    if s.cursor.current.None? || s.cursor.current.value !in IdsOf(s.findings) then []
    else match e.emit
      case Down => [Failing(s, QaActive)]
      case Raises => []
      case _ => [Log(s, EmitCall)]
  }

  /** `_do_confirm_topic`. */
  function TopicT(s: Session, e: Env): seq<Session> {
    var a := Log(s, TopicCall);
    match e.topic
    case Down => [Failing(s, SubjectConfirmation)]
    case Raises => []
    case Breaks => [a]
    case Fine => [a, a.(stage := SubjectConfirmation)]
  }

  /** The end of `scan.run`: store the findings, then the cursor, then open Q&A. */
  function FoundT(cfg: Config, s: Session, found: seq<Finding>): seq<Session> {
    var ids := Prioritize(found);
    var d := s.(findings := s.findings + Opened(found), cursor := FirstCursor(ids, cfg.topN), plan := ids);
    Appends(s, Opened(found)) + [d, d.(stage := QaActive)]
  }

  /** `scan.run`, after SCANNING was written. */
  function ScanRunT(cfg: Config, s: Session, e: Env): seq<Session> {
    var a := Log(s, PillarCall);
    var b := Log(a, ResponderCall);
    match e.scan
    case NoAnswer => [Failing(s, Scanning)]
    case OneAnswer => [a, Failing(a, Scanning)]
    case TwoAnswers => [a, b, Failing(b, Scanning)]
    case ScanRaises(n) => if n == 0 then [] else if n == 1 then [a] else [a, b]
    case ScanStores(stored) => [a, b] + Appends(b, Opened(stored))
    case Scanned(found) => [a, b] + FoundT(cfg, b, found)
  }

  /** `_do_scan`. */
  function ScanT(cfg: Config, s: Session, e: Env): seq<Session> {
    if !s.stage.Scanning? && !s.stage.SubjectConfirmation? then []
    else
      var s0 := s.(stage := Scanning);
      var t := ScanRunT(cfg, s0, e);
      [s0] + t + if e.scan.Scanned? then EmitT(End(s0, t), e) else []
  }

  function RescanStartT(s: Session): seq<Session> {
    var a := s.(cursor := EMPTY_CURSOR);
    [a, a.(stage := Scanning, roundNo := s.roundNo + 1)]
  }

  /** `_kickoff_rescan_after_supplement`. */
  function RescanT(cfg: Config, s: Session, e: Env): seq<Session> {
    RescanStartT(s) + ScanT(cfg, End(s, RescanStartT(s)), e)
  }

  datatype Action = EmitNext | ProposeClose | GoForceClose | NoOp

  function StatusFor(i: Intent): Option<FindingStatus> {
    match i
    case Accept => Some(Accepted)
    case Reject => Some(Rejected)
    case Modify => Some(Modified)
    case _ => None
  }

  /** `qa_loop.handle_reply`. */
  function QaReplyT(cfg: Config, s: Session, i: Intent): (seq<Session>, Action) {
    if i.More? then
      var c := Pulled(s.cursor, cfg.topN);
      var s1 := s.(cursor := c);
      if Take(s.cursor.deferred, cfg.topN) == [] then ([s1], ProposeClose)
      else if c.current.None? then ([s1, s1.(cursor := Advanced(c))], EmitNext)
      else ([s1], EmitNext)
    else if i.Done? then ([], ProposeClose)
    else if i.ForceClose? then ([], GoForceClose)
    else if s.cursor.current.None? then ([], ProposeClose)
    else if i.Question? then ([], NoOp)
    else
      var s1 := if StatusFor(i).Some?
                then s.(findings := Restatus(s.findings, s.cursor.current.value, StatusFor(i).value)) else s;
      var s2 := s1.(cursor := Advanced(s1.cursor), asked := s1.asked + 1);
      ((if StatusFor(i).Some? then [s1] else []) + [s2],
       if s2.cursor.current.None? && s2.cursor.pending == [] then ProposeClose else EmitNext)
  }

  /** `merge_draft.run`, which reads normalized.md first; a terminal failure marks the session
      FAILED and the caller carries on. */
  function MergeT(s: Session, e: Env): seq<Session> {
    var a := Log(s, MergeCall);
    if !s.material then []
    else match e.merge
      case Down => [Failing(s, Merging)]
      case Raises => []
      case Breaks => [a]
      case Fine => [a, a.(stage := FinalGating)]
  }

  predicate MergeAborts(s: Session, e: Env) {
    !s.material || e.merge.Raises? || e.merge.Breaks?
  }

  function GateVerdict(forced: bool, g: GateAnswer): Verdict
    requires g.GateSays?
  {
    if forced then ForcedPartial
    else if g.cswFail || g.intentFail then Fail
    else match g.raw
      case RawOpenItems => ReadyWithOpenItems
      case RawFail => Fail
      case RawReady => Ready
  }

  /** `final_gate.run`; a terminal failure marks the session FAILED and the caller carries on. */
  function GateT(s: Session, forced: bool, e: Env): seq<Session> {
    var a := Log(s, GateCall);
    match e.gate
    case GateDown => [Failing(s, FinalGating)]
    case GateGarbled => [a, Failing(a, FinalGating)]
    case GateRaises => []
    case GateBreaks => [a]
    case GateSays(_, _, _) =>
      var v := GateVerdict(forced, e.gate);
      if v.Fail? then [a, a.(failCount := s.failCount + 1, verdict := Some(v))]
      else [a, a.(verdict := Some(v), stage := Closing)]
  }

  predicate GateAborts(g: GateAnswer) { g.GateRaises? || g.GateBreaks? }

  /** `_do_build_and_deliver`. */
  function DeliverT(s: Session, e: Env): seq<Session> {
    var a := Log(s, SummaryCall);
    var b := a.(stage := Closing);
    match e.summary
    case Down => [Failing(s, Closing)]
    case Raises => []
    case Breaks => [a]
    case Fine => [a, b] + if e.delivered then [b.(status := Status.Closed, stage := Stage.Closed)] else []
  }

  /** The last two statements of the close chain. */
  function CloseT(s: Session, e: Env): seq<Session> {
    var a := s.(stage := Closing);
    [a] + DeliverT(a, e)
  }

  function Reopened(c: CursorData, regressions: seq<Id>): CursorData {
    var d := c.(rescan := true, pending := regressions + c.pending);
    if d.current.None? then Advanced(d) else d
  }

  /** `transition_after_final_gate_fail`. */
  function ReopenT(s: Session, regressions: seq<Id>): seq<Session> {
    var a := s.(cursor := Reopened(s.cursor, regressions));
    [a, a.(stage := QaActiveReopened, roundNo := s.roundNo + 1)]
  }

  /** What the close chain does once merge and gate have run. */
  function AfterGateT(cfg: Config, s: Session, forced: bool, e: Env): seq<Session> {
    if s.verdict != Some(Fail) || forced then CloseT(s, e)
    else if OpenBlockers(s.findings) == [] then
      var a := s.(verdict := Some(ForcedPartial), stage := Closing);
      [a] + CloseT(a, e)
    else if s.failCount < cfg.maxFails then
      var t := ReopenT(s, OpenBlockers(s.findings));
      t + EmitT(End(s, t), e)
    else
      var a := s.(verdict := Some(ForcedPartial));
      [a] + CloseT(a, e)
  }

  /** `_enqueue_close_chain`, once merge is done. */
  function GatedT(cfg: Config, s: Session, forced: bool, e: Env): seq<Session> {
    var t := GateT(s, forced, e);
    t + if GateAborts(e.gate) then [] else AfterGateT(cfg, End(s, t), forced, e)
  }

  /** `_enqueue_close_chain`. */
  function ChainT(cfg: Config, s: Session, forced: bool, e: Env): seq<Session> {
    var t := MergeT(s, e);
    t + if MergeAborts(s, e) then [] else GatedT(cfg, End(s, t), forced, e)
  }

  /** `_handle_awaiting_material_confirm`. */
  function MaterialT(s: Session, r: Reply, e: Env): seq<Session> {
    match r.material
    case CancelReview => [s.(status := Status.Cancelled, stage := Stage.Cancelled)]
    case StartReview => [s.(stage := SubjectConfirmation)] + TopicT(s.(stage := SubjectConfirmation), e)
    case OtherReply => []
  }

  /** The SUBJECT_CONFIRMATION branch. */
  function SubjectT(cfg: Config, s: Session, r: Reply, e: Env): seq<Session> {
    if r.newMaterial then [s] + TopicT(s, e)
    else if r.picksSubject then [s.(stage := Scanning)] + ScanT(cfg, s.(stage := Scanning), e)
    else []
  }

  /** What the dispatcher does with the outcome of `handle_reply`. */
  function ActT(cfg: Config, s: Session, act: Action, e: Env): seq<Session> {
    match act
    case EmitNext => EmitT(s, e)
    case ProposeClose => [s.(stage := AwaitingCloseConfirmation)]
    case GoForceClose => ChainT(cfg, s, true, e)
    case NoOp => []
  }

  /** The QA_ACTIVE / QA_ACTIVE_REOPENED branch. */
  function QaT(cfg: Config, s: Session, r: Reply, e: Env): seq<Session> {
    var s0 := s.(stage := QaActive);
    match r.supplement
    case Unreadable => [s0]
    case Appended => [s0] + RescanT(cfg, s0, e)
    case NotMaterial =>
      var (t, act) := QaReplyT(cfg, s0, r.intent);
      [s0] + t + ActT(cfg, End(s0, t), act, e)
  }

  /** A reply to a question ends where the action it leads to ends. */
  lemma QaEnd(cfg: Config, s: Session, r: Reply, e: Env)
    requires r.supplement.NotMaterial?
    ensures var s0 := s.(stage := QaActive);
            var (t, act) := QaReplyT(cfg, s0, r.intent);
            End(s, QaT(cfg, s, r, e)) == End(End(s0, t), ActT(cfg, End(s0, t), act, e))
  {
    var s0 := s.(stage := QaActive);
    var (t, act) := QaReplyT(cfg, s0, r.intent);
    EndCat(s, [s0], t);
    EndCat(s, [s0] + t, ActT(cfg, End(s0, t), act, e));
  }

  /** `_handle_close_confirmation`. */
  function ConfirmT(cfg: Config, s: Session, i: Intent, e: Env): seq<Session> {
    match i
    case Accept => [s.(stage := Merging)] + ChainT(cfg, s.(stage := Merging), false, e)
    case Done => [s.(stage := Merging)] + ChainT(cfg, s.(stage := Merging), false, e)
    case PickA => [s.(stage := Merging)] + ChainT(cfg, s.(stage := Merging), false, e)
    case More => PullAtCloseT(cfg, s, e)
    case PickB => PullAtCloseT(cfg, s, e)
    case ForceClose => ChainT(cfg, s, true, e)
    case _ => []
  }

  /** Pull deferred findings at the close prompt and go back to Q&A. Advancing moves past the
      question on screen, if there still is one. */
  function PulledT(cfg: Config, s: Session): seq<Session> {
    var a := s.(cursor := Advanced(Pulled(s.cursor, cfg.topN)),
                asked := s.asked + if s.cursor.current.Some? then 1 else 0);
    [a, a.(stage := QaActive)]
  }

  /** `more` in answer to the close prompt. */
  function PullAtCloseT(cfg: Config, s: Session, e: Env): seq<Session> {
    if Take(s.cursor.deferred, cfg.topN) == [] then []
    else PulledT(cfg, s) + EmitT(End(s, PulledT(cfg, s)), e)
  }

  /** The llm_calls key that tells a busy stage from an interrupted one. */
  function BusyKey(st: Stage): Option<Call> {
    match st
    case Scanning => Some(PillarCall)
    case Merging => Some(MergeCall)
    case FinalGating => Some(GateCall)
    case Closing => Some(SummaryCall)
    case _ => None
  }

  /** The busy-stage branch: restart the stage if its call was never logged. */
  function BusyT(cfg: Config, s: Session, e: Env): seq<Session>
    requires BusyKey(s.stage).Some?
  {
    if BusyKey(s.stage).value in s.calls then []
    else match s.stage
      case Scanning => ScanT(cfg, s, e)
      case Merging => MergeT(s, e)
      case FinalGating => GateT(s, false, e)
      case Closing => DeliverT(s, e)
  }

  /** `_handle_requester_in_session`. */
  function ReplyT(cfg: Config, s: Session, r: Reply, e: Env): seq<Session> {
    match s.stage
    case AwaitingMaterialConfirm => MaterialT(s, r, e)
    case SubjectConfirmation => SubjectT(cfg, s, r, e)
    case QaActive => QaT(cfg, s, r, e)
    case QaActiveReopened => QaT(cfg, s, r, e)
    case AwaitingCloseConfirmation => ConfirmT(cfg, s, r.intent, e)
    case _ =>
      if BusyKey(s.stage).Some? then BusyT(cfg, s, e)
      else if r.intent.Accept? || r.intent.Done? then ChainT(cfg, s, false, e)
      else []
  }

  // ── runs ────────────────────────────────────────────────

  /** One delivered message; `cut == Some(k)` means its handler got no further than k writes: the
      process died, or a storage operation raised. */
  datatype Event = Event(reply: Reply, env: Env, cut: Option<nat>)

  function Kept(t: seq<Session>, cut: Option<nat>): seq<Session> {
    if cut.Some? && cut.value < |t| then t[..cut.value] else t
  }

  /** Only ACTIVE sessions receive messages. */
  function StepT(cfg: Config, s: Session, e: Event): seq<Session> {
    if s.status.Active? then Kept(ReplyT(cfg, s, e.reply, e.env), e.cut) else []
  }

  function Step(cfg: Config, s: Session, e: Event): Session {
    End(s, StepT(cfg, s, e))
  }

  function Exec(cfg: Config, s: Session, es: seq<Event>): Session
    decreases |es|
  {
    if es == [] then s else Exec(cfg, Step(cfg, s, es[0]), es[1..])
  }

  /** A session row right after it was inserted. */
  const NEW_SESSION := Session(Intake, Active, 1, 0, None, false, EMPTY_CURSOR, [], [], 0, [])

  /** The same row once the material is stored. */
  const INGESTED := NEW_SESSION.(material := true)

  datatype Ingest = Ingested | Refused | Broken

  /** `_handle_requester_no_session`, from the inserted row on. */
  function IntakeT(i: Ingest): seq<Session> {
    match i
    case Ingested => [NEW_SESSION, INGESTED, INGESTED.(stage := AwaitingMaterialConfirm)]
    case Refused => [NEW_SESSION, NEW_SESSION.(status := Status.Cancelled, stage := IngestFailed)]
    case Broken => [NEW_SESSION, Failing(NEW_SESSION, IngestFailed)]
  }

  /** Where a session can be when its first reply arrives. */
  ghost predicate Fresh(s: Session) {
    s == NEW_SESSION || s == INGESTED || s == INGESTED.(stage := AwaitingMaterialConfirm)
  }
}
