/** The value types of review_agent/core/enums.py and review_agent/core/models.py,
    and the in-memory `Cursor` object that is loaded from, and saved to, cursor.json. */
module Models {

  datatype Option<+T> = None | Some(value: T)

  /** Finding ids are never empty: the parser replaces a missing or empty id (scan.py:104). */
  type Id = s: string | s != "" witness "p1"

  datatype Stage =
    | Intake | AwaitingMaterialConfirm | SubjectConfirmation | Scanning
    | QaActive | QaActiveReopened | AwaitingCloseConfirmation
    | Merging | FinalGating | Closing | Closed | IngestFailed | Cancelled

  datatype Status = Active | Closed | Failed | Cancelled

  datatype Verdict = Ready | ReadyWithOpenItems | ForcedPartial | Fail

  datatype Severity = Blocker | Improvement | NiceToHave

  datatype Pillar = Background | Materials | Framework | Intent

  datatype FindingStatus = Open | Accepted | Rejected | Modified

  datatype Finding = Finding(id: Id, pillar: Pillar, severity: Severity, priority: Option<int>, status: FindingStatus)

  /** What the reply parser makes of a message. */
  datatype Intent =
    | Accept | Reject | Modify | Pass | More | Done | Custom | Question | ForceClose
    | PickA | PickB | PickC

  // ── Python list slicing ─────────────────────────────────

  /** The cut point of `xs[:n]` and `xs[n:]` for any integer n. */
  function Cut(len: nat, n: int): (k: nat)
    ensures k <= len
  {
    if n >= 0 then if n <= len then n else len
    else if len + n >= 0 then len + n else 0
  }

  function Take<T>(xs: seq<T>, n: int): seq<T> { xs[..Cut(|xs|, n)] }

  function Drop<T>(xs: seq<T>, n: int): seq<T> { xs[Cut(|xs|, n)..] }

  // ── Cursor ──────────────────────────────────────────────

  /** The contents of cursor.json. */
  datatype CursorData = CursorData(
    current: Option<Id>, pending: seq<Id>, deferred: seq<Id>, done: seq<Id>, rescan: bool)

  const EMPTY_CURSOR := CursorData(None, [], [], [], false)

  function CurrentSeq(c: CursorData): seq<Id> {
    if c.current.Some? then [c.current.value] else []
  }

  /** The order in which the requester sees the findings: already done, on screen, next, put off. */
  function Presentation(c: CursorData): seq<Id> {
    c.done + CurrentSeq(c) + c.pending + c.deferred
  }

  /** Questions not yet advanced past. */
  function Remaining(c: CursorData): nat {
    |CurrentSeq(c)| + |c.pending| + |c.deferred|
  }

  ghost predicate Distinct(s: seq<Id>) {
    forall i, j :: 0 <= i < j < |s| ==> s[i] != s[j]
  }

  ghost function Ids(c: CursorData): set<Id> {
    set x | x in Presentation(c)
  }

  function Advanced(c: CursorData): CursorData {
    c.(done := if c.current.Some? && c.current.value !in c.done then c.done + [c.current.value] else c.done,
       current := if c.pending != [] then Some(c.pending[0]) else None,
       pending := if c.pending != [] then c.pending[1..] else [])
  }

  function Pulled(c: CursorData, n: int): CursorData {
    c.(pending := c.pending + Take(c.deferred, n), deferred := Drop(c.deferred, n))
  }

  lemma AdvancedKeepsOrder(c: CursorData)
    requires Distinct(Presentation(c))
    ensures Presentation(Advanced(c)) == Presentation(c)
  {
    var p := Presentation(c);
    if c.current.Some? {
      assert p[|c.done|] == c.current.value;
      assert forall i :: 0 <= i < |c.done| ==> p[i] == c.done[i];
    }
    assert Presentation(Advanced(c)) == p;
  }

  lemma PulledKeepsOrder(c: CursorData, n: int)
    ensures Presentation(Pulled(c, n)) == Presentation(c)
  {
    assert Take(c.deferred, n) + Drop(c.deferred, n) == c.deferred;
  }

  /** How many deferred ids are pulled, and which: the first n, or for a negative n all but the last -n. */
  lemma PulledExactly(c: CursorData, n: int)
    ensures var k := if n >= 0 then (if n < |c.deferred| then n else |c.deferred|)
                     else if -n < |c.deferred| then |c.deferred| + n else 0;
            && Pulled(c, n).pending == c.pending + c.deferred[..k]
            && Pulled(c, n).deferred == c.deferred[k..]
            && Pulled(c, n).current == c.current && Pulled(c, n).done == c.done
  {
  }

  lemma PulledMoves(c: CursorData, n: int)
    ensures |c.deferred| - |Pulled(c, n).deferred| == |Take(c.deferred, n)| && Pulled(c, n).current == c.current
  {
  }

  lemma PresentationMembers(c: CursorData, x: Id)
    ensures x in Ids(c) <==> x in c.done || c.current == Some(x) || x in c.pending || x in c.deferred
  {
    assert x in Presentation(c) <==> x in c.done || x in CurrentSeq(c) || x in c.pending || x in c.deferred;
  }

  lemma AdvancedKeepsIds(c: CursorData)
    ensures Ids(Advanced(c)) == Ids(c)
  {
    forall x: Id ensures x in Ids(Advanced(c)) <==> x in Ids(c) {
      PresentationMembers(c, x);
      PresentationMembers(Advanced(c), x);
      if c.pending != [] {
        assert c.pending == [c.pending[0]] + c.pending[1..];
      }
    }
  }

  lemma PulledKeepsIds(c: CursorData, n: int)
    ensures Ids(Pulled(c, n)) == Ids(c)
  {
    PulledKeepsOrder(c, n);
  }

  // ── the in-memory cursor object ─────────────────────────

  /** core/models.py `Cursor`: a mutable object built from, and written back to, cursor.json. */
  class Cursor {
    var current: Option<Id>
    var pending: seq<Id>
    var deferred: seq<Id>
    var done: seq<Id>
    var rescan: bool

    constructor FromDict(d: CursorData)
      ensures ToDict() == d
    {
      current, pending, deferred, done, rescan := d.current, d.pending, d.deferred, d.done, d.rescan;
    }

    function ToDict(): CursorData
      reads this
    {
      CursorData(current, pending, deferred, done, rescan)
    }

    method Advance() returns (next: Option<Id>)
      modifies this
      ensures ToDict() == Advanced(old(ToDict()))
      ensures next == current
      ensures Distinct(old(Presentation(ToDict()))) ==> Presentation(ToDict()) == old(Presentation(ToDict()))
    {
      ghost var before := ToDict();
      if current.Some? && current.value !in done {
        done := done + [current.value];
      }
      if pending != [] {
        current, pending := Some(pending[0]), pending[1..];
      } else {
        current := None;
      }
      if Distinct(Presentation(before)) {
        AdvancedKeepsOrder(before);
      }
      next := current;
    }

    method PullDeferred(n: int) returns (moved: nat)
      modifies this
      ensures ToDict() == Pulled(old(ToDict()), n)
      ensures n >= 0 ==> moved == if n < old(|deferred|) then n else old(|deferred|)
      ensures n < 0 ==> moved == if -n < old(|deferred|) then old(|deferred|) + n else 0
      ensures moved == old(|deferred|) - |deferred|
      ensures Presentation(ToDict()) == old(Presentation(ToDict()))
    {
      PulledKeepsOrder(ToDict(), n);
      var batch := Take(deferred, n);
      deferred := Drop(deferred, n);
      pending := pending + batch;
      moved := |batch|;
    }

    method IsEmpty() returns (b: bool)
      ensures b <==> Remaining(ToDict()) == |deferred|
    {
      b := current.None? && pending == [];
    }
  }
}
