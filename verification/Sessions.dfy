/** All sessions of all requesters: `_handle_incoming`, `_handle_requester_no_session` and the
    sessions table. */
module Sessions {
  import opened Models
  import opened Protocol
  import opened Wedges
  import opened Coverage

  datatype Row = Row(requester: string, session: Session)

  /** One incoming message. `paired` says whether the sender has a responder; `ingest` and the
      rest tell how a new, or the active, session fares. */
  datatype Message = Message(sender: string, paired: bool, ingest: Ingest, event: Event)

  /** `get_active_session_for`: the latest ACTIVE row of the requester. */
  function ActiveRow(rows: seq<Row>, oid: string): (r: Option<nat>)
    ensures r.Some? ==> r.value < |rows| && rows[r.value].requester == oid && rows[r.value].session.status.Active?
    ensures r.Some? ==> forall i :: r.value < i < |rows| && rows[i].requester == oid ==> !rows[i].session.status.Active?
    ensures r.None? ==> forall i :: 0 <= i < |rows| && rows[i].requester == oid ==> !rows[i].session.status.Active?
  {
    if rows == [] then None
    else
      var last := |rows| - 1;
      if rows[last].requester == oid && rows[last].session.status.Active? then Some(last)
      else ActiveRow(rows[..last], oid)
  }

  function Handle(cfg: Config, rows: seq<Row>, m: Message): seq<Row> {
    var a := ActiveRow(rows, m.sender);
    if a.Some? then rows[a.value := rows[a.value].(session := Step(cfg, rows[a.value].session, m.event))]
    else
      var t := if m.paired then Kept(IntakeT(m.ingest), m.event.cut) else [];
      if t == [] then rows else rows + [Row(m.sender, t[|t| - 1])]
  }

  function HandleAll(cfg: Config, rows: seq<Row>, ms: seq<Message>): seq<Row>
    decreases |ms|
  {
    if ms == [] then rows else HandleAll(cfg, Handle(cfg, rows, ms[0]), ms[1..])
  }

  ghost predicate OneActiveEach(rows: seq<Row>) {
    forall i, j :: 0 <= i < j < |rows| && rows[i].requester == rows[j].requester ==>
      !(rows[i].session.status.Active? && rows[j].session.status.Active?)
  }

  lemma {:induction false} OnlyActiveFound(rows: seq<Row>, i: nat)
    requires OneActiveEach(rows) && i < |rows| && rows[i].session.status.Active?
    ensures ActiveRow(rows, rows[i].requester) == Some(i)
  {
    var last := |rows| - 1;
    if i < last {
      OnlyActiveFound(rows[..last], i);
    }
  }

  /** Rows are never removed or reassigned, and a session that is not ACTIVE is never touched
      again. */
  lemma HandleKeepsRows(cfg: Config, rows: seq<Row>, m: Message)
    ensures |rows| <= |Handle(cfg, rows, m)| <= |rows| + 1
    ensures forall i :: 0 <= i < |rows| ==> Handle(cfg, rows, m)[i].requester == rows[i].requester
    ensures forall i :: 0 <= i < |rows| && !rows[i].session.status.Active? ==> Handle(cfg, rows, m)[i] == rows[i]
    ensures forall i :: 0 <= i < |rows| && rows[i].requester != m.sender ==> Handle(cfg, rows, m)[i] == rows[i]
  {
  }

  lemma HandleKeepsOneActive(cfg: Config, rows: seq<Row>, m: Message)
    requires OneActiveEach(rows)
    ensures OneActiveEach(Handle(cfg, rows, m))
  {
    HandleKeepsRows(cfg, rows, m);
    var a := ActiveRow(rows, m.sender);
    var after := Handle(cfg, rows, m);
    forall i, j | 0 <= i < j < |after| && after[i].requester == after[j].requester
      ensures !(after[i].session.status.Active? && after[j].session.status.Active?)
    {
    }
  }

  /** Each requester has at most one ACTIVE session, whatever messages arrive, are re-driven or
      are cut short by a crash; and a session that once left ACTIVE keeps its final row. */
  lemma {:induction false} SingleActiveSession(cfg: Config, rows: seq<Row>, ms: seq<Message>)
    requires OneActiveEach(rows)
    ensures OneActiveEach(HandleAll(cfg, rows, ms))
    ensures |rows| <= |HandleAll(cfg, rows, ms)|
    ensures forall i :: 0 <= i < |rows| && !rows[i].session.status.Active? ==> HandleAll(cfg, rows, ms)[i] == rows[i]
    decreases |ms|
  {
    if ms != [] {
      var next := Handle(cfg, rows, ms[0]);
      HandleKeepsRows(cfg, rows, ms[0]);
      HandleKeepsOneActive(cfg, rows, ms[0]);
      SingleActiveSession(cfg, next, ms[1..]);
    }
  }

  lemma {:induction false} RequestersKept(cfg: Config, rows: seq<Row>, ms: seq<Message>)
    ensures |rows| <= |HandleAll(cfg, rows, ms)|
    ensures forall i :: 0 <= i < |rows| ==> HandleAll(cfg, rows, ms)[i].requester == rows[i].requester
    decreases |ms|
  {
    if ms != [] {
      HandleKeepsRows(cfg, rows, ms[0]);
      RequestersKept(cfg, Handle(cfg, rows, ms[0]), ms[1..]);
    }
  }

  /** A wedged session blocks its requester: no message changes it, and no other session is ever
      opened for that requester. */
  lemma {:induction false} WedgedRequesterBlocked(cfg: Config, rows: seq<Row>, k: nat, ms: seq<Message>)
    requires OneActiveEach(rows) && k < |rows| && Wedged(rows[k].session)
    ensures var after := HandleAll(cfg, rows, ms);
            && |rows| <= |after| && after[k] == rows[k]
            && (forall i :: |rows| <= i < |after| ==> after[i].requester != rows[k].requester)
    decreases |ms|
  {
    if ms != [] {
      var m := ms[0];
      var next := Handle(cfg, rows, m);
      HandleKeepsRows(cfg, rows, m);
      HandleKeepsOneActive(cfg, rows, m);
      if m.sender == rows[k].requester {
        OnlyActiveFound(rows, k);
        WedgedForever(cfg, rows[k].session, [m.event]);
        assert Exec(cfg, rows[k].session, [m.event]) == Step(cfg, rows[k].session, m.event);
      }
      assert next[k] == rows[k];
      RequestersKept(cfg, next, ms[1..]);
      WedgedRequesterBlocked(cfg, next, k, ms[1..]);
    }
  }

  /** A new session is out of reach from the start exactly when the process dies during the ingest,
      before the material is stored: with the row inserted, and nothing else. */
  lemma IngestDeathIff(cfg: Config, rows: seq<Row>, m: Message)
    requires ActiveRow(rows, m.sender).None?
    ensures |Handle(cfg, rows, m)| > |rows| && Wedged(Handle(cfg, rows, m)[|rows|].session) <==>
            m.paired && m.event.cut == Some(1)
  {
    var t := Kept(IntakeT(m.ingest), m.event.cut);
    if m.paired && t != [] {
      assert Handle(cfg, rows, m)[|rows|].session == t[|t| - 1];
    }
  }

  /** How an ingest ends: material taken in waits to be confirmed, a refusal cancels the session, and an
      error fails it. */
  lemma IngestOutcome(cfg: Config, rows: seq<Row>, m: Message)
    requires ActiveRow(rows, m.sender).None? && m.event.cut.None?
    ensures var after := Handle(cfg, rows, m);
            if !m.paired then after == rows
            else
              && |after| == |rows| + 1 && after[..|rows|] == rows && after[|rows|].requester == m.sender
              && var x := after[|rows|].session;
                 match m.ingest
                 case Ingested => x.status.Active? && x.stage.AwaitingMaterialConfirm? && x.material
                 case Refused => x.status.Cancelled? && x.stage.IngestFailed? && !x.material
                 case Broken => x.status.Failed? && x.stage.IngestFailed? && !x.material
  {
  }

  // ── every session of every requester ────────────────────

  ghost predicate AllSafe(cfg: Config, rows: seq<Row>) {
    forall i :: 0 <= i < |rows| ==> Inv(cfg, rows[i].session)
  }

  lemma IntakeSafe(cfg: Config, ing: Ingest, k: nat)
    requires k < |IntakeT(ing)|
    ensures Inv(cfg, IntakeT(ing)[k])
  {
    FreshInv(cfg, NEW_SESSION);
    FreshInv(cfg, INGESTED);
    FreshInv(cfg, INGESTED.(stage := AwaitingMaterialConfirm));
    SameData(cfg, NEW_SESSION, IntakeT(ing)[k]);
  }

  lemma HandleKeepsSafe(cfg: Config, rows: seq<Row>, m: Message)
    requires AllSafe(cfg, rows)
    ensures AllSafe(cfg, Handle(cfg, rows, m))
  {
    var a := ActiveRow(rows, m.sender);
    if a.Some? {
      StepInv(cfg, rows[a.value].session, m.event);
    } else if m.paired {
      var t := Kept(IntakeT(m.ingest), m.event.cut);
      if t != [] {
        IntakeSafe(cfg, m.ingest, |t| - 1);
      }
    }
  }

  lemma {:induction false} HandleAllKeepsSafe(cfg: Config, rows: seq<Row>, ms: seq<Message>)
    requires AllSafe(cfg, rows)
    ensures AllSafe(cfg, HandleAll(cfg, rows, ms))
    decreases |ms|
  {
    if ms != [] {
      HandleKeepsSafe(cfg, rows, ms[0]);
      HandleAllKeepsSafe(cfg, Handle(cfg, rows, ms[0]), ms[1..]);
    }
  }

  /** From an empty table, every row of every requester meets the invariants of its session, and
      no requester ever has two ACTIVE sessions. */
  lemma EveryRowSafe(cfg: Config, ms: seq<Message>)
    ensures var rows := HandleAll(cfg, [], ms); AllSafe(cfg, rows) && OneActiveEach(rows)
  {
    HandleAllKeepsSafe(cfg, [], ms);
    SingleActiveSession(cfg, [], ms);
  }
}
