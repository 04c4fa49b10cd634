/** review_agent/pipeline/scan.py: ranking the findings and splitting them into shown and deferred. */
module Scan {
  import opened Models

  function SeverityRank(s: Severity): nat {
    match s
    case Blocker => 0
    case Improvement => 1
    case NiceToHave => 2
  }

  /** `f.priority or 99`: a missing priority and a priority of zero both count as 99. */
  function PriorityOr99(p: Option<int>): int {
    if p.Some? && p.value != 0 then p.value else 99
  }

  /** Python's order on strings. */
  predicate StringLe(a: string, b: string) {
    if a == "" then true
    else if b == "" then false
    else if a[0] != b[0] then a[0] < b[0]
    else StringLe(a[1..], b[1..])
  }

  /** Order of the sort key: severity, Intent pillar first, priority, id. */
  predicate RankLe(f: Finding, g: Finding) {
    if f.severity != g.severity then SeverityRank(f.severity) <= SeverityRank(g.severity)
    else if f.pillar.Intent? != g.pillar.Intent? then f.pillar.Intent?
    else if PriorityOr99(f.priority) != PriorityOr99(g.priority)
        then PriorityOr99(f.priority) < PriorityOr99(g.priority)
    else StringLe(f.id, g.id)
  }

  lemma {:induction false} StringLeTotal(a: string, b: string)
    ensures StringLe(a, b) || StringLe(b, a)
    ensures StringLe(a, b) && StringLe(b, a) ==> a == b
  {
    if a != "" && b != "" && a[0] == b[0] {
      StringLeTotal(a[1..], b[1..]);
      assert a == [a[0]] + a[1..] && b == [b[0]] + b[1..];
    }
  }

  lemma {:induction false} StringLeTransitive(a: string, b: string, c: string)
    requires StringLe(a, b) && StringLe(b, c)
    ensures StringLe(a, c)
  {
    if a != "" && b != "" && c != "" && a[0] == b[0] == c[0] {
      StringLeTransitive(a[1..], b[1..], c[1..]);
    }
  }

  lemma RankLeTransitive(f: Finding, g: Finding, h: Finding)
    requires RankLe(f, g) && RankLe(g, h)
    ensures RankLe(f, h)
  {
    if StringLe(f.id, g.id) && StringLe(g.id, h.id) {
      StringLeTransitive(f.id, g.id, h.id);
    }
  }

  ghost predicate Ranked(fs: seq<Finding>) {
    forall i, j :: 0 <= i < j < |fs| ==> RankLe(fs[i], fs[j])
  }

  function Insert(f: Finding, fs: seq<Finding>): seq<Finding> {
    if fs == [] || !RankLe(fs[0], f) then [f] + fs
    else [fs[0]] + Insert(f, fs[1..])
  }

  /** `sorted(findings, key=key)`; a later finding goes after earlier ones of equal rank. */
  function SortByRank(fs: seq<Finding>): seq<Finding> {
    if fs == [] then [] else Insert(fs[|fs| - 1], SortByRank(fs[..|fs| - 1]))
  }

  lemma {:induction false} InsertAdds(f: Finding, fs: seq<Finding>)
    ensures multiset(Insert(f, fs)) == multiset(fs) + multiset{f}
  {
    if fs != [] && RankLe(fs[0], f) {
      InsertAdds(f, fs[1..]);
      assert fs == [fs[0]] + fs[1..];
    }
  }

  lemma RankedCons(f: Finding, fs: seq<Finding>)
    requires Ranked(fs) && forall j :: 0 <= j < |fs| ==> RankLe(f, fs[j])
    ensures Ranked([f] + fs)
  {
  }

  /** What goes before every finding of a ranked list goes before all of them. */
  lemma BeforeAll(f: Finding, fs: seq<Finding>, j: nat)
    requires Ranked(fs) && j < |fs| && RankLe(f, fs[0])
    ensures RankLe(f, fs[j])
  {
    if j > 0 {
      RankLeTransitive(f, fs[0], fs[j]);
    }
  }

  lemma InsertMember(f: Finding, fs: seq<Finding>, g: Finding)
    requires g in Insert(f, fs)
    ensures g == f || g in fs
  {
    InsertAdds(f, fs);
    assert g in multiset(Insert(f, fs));
  }

  lemma {:induction false} InsertRanked(f: Finding, fs: seq<Finding>)
    requires Ranked(fs)
    ensures Ranked(Insert(f, fs))
  {
    if fs != [] && RankLe(fs[0], f) {
      var rest := Insert(f, fs[1..]);
      InsertRanked(f, fs[1..]);
      forall j | 0 <= j < |rest| ensures RankLe(fs[0], rest[j]) {
        InsertMember(f, fs[1..], rest[j]);
      }
      RankedCons(fs[0], rest);
    } else if fs != [] {
      StringLeTotal(fs[0].id, f.id);
      forall j | 0 <= j < |fs| ensures RankLe(f, fs[j]) {
        BeforeAll(f, fs, j);
      }
      RankedCons(f, fs);
    }
  }

  lemma {:induction false} SortByRankSorts(fs: seq<Finding>)
    ensures Ranked(SortByRank(fs))
    ensures multiset(SortByRank(fs)) == multiset(fs)
    ensures |SortByRank(fs)| == |fs|
  {
    if fs != [] {
      var front := fs[..|fs| - 1];
      SortByRankSorts(front);
      InsertRanked(fs[|fs| - 1], SortByRank(front));
      InsertAdds(fs[|fs| - 1], SortByRank(front));
      assert fs == front + [fs[|fs| - 1]];
    }
    assert |multiset(SortByRank(fs))| == |multiset(fs)|;
  }

  /** What the ranking means for an earlier finding x and a later one y. */
  lemma RankedMeans(fs: seq<Finding>, i: nat, j: nat)
    requires i < j < |fs|
    ensures |SortByRank(fs)| == |fs|
    ensures var x, y := SortByRank(fs)[i], SortByRank(fs)[j];
            && (y.severity.Blocker? ==> x.severity.Blocker?)
            && (x.severity.NiceToHave? ==> y.severity.NiceToHave?)
            && (x.severity == y.severity ==>
                  && (y.pillar.Intent? ==> x.pillar.Intent?)
                  && (x.pillar.Intent? == y.pillar.Intent? ==>
                        var p := if x.priority.None? || x.priority == Some(0) then 99 else x.priority.value;
                        var q := if y.priority.None? || y.priority == Some(0) then 99 else y.priority.value;
                        p < q || (p == q && StringLe(x.id, y.id))))
  {
    SortByRankSorts(fs);
    assert RankLe(SortByRank(fs)[i], SortByRank(fs)[j]);
  }

  /** What Python's order on strings means: a prefix, or a smaller character where they first differ. */
  lemma {:induction false} StringLeMeans(a: string, b: string)
    ensures StringLe(a, b) <==> a <= b || exists k :: 0 <= k < |a| && k < |b| && a[..k] == b[..k] && a[k] < b[k]
  {
    if a != "" && b != "" {
      if a[0] == b[0] {
        StringLeMeans(a[1..], b[1..]);
        assert a == [a[0]] + a[1..] && b == [b[0]] + b[1..];
        if k :| 0 <= k < |a| - 1 && k < |b| - 1 && a[1..][..k] == b[1..][..k] && a[1..][k] < b[1..][k] {
          assert a[..k + 1] == [a[0]] + a[1..][..k] && b[..k + 1] == [b[0]] + b[1..][..k];
          assert a[k + 1] < b[k + 1];
        }
        if k :| 0 <= k < |a| && k < |b| && a[..k] == b[..k] && a[k] < b[k] {
          assert k > 0 && a[1..][..k - 1] == a[..k][1..] && b[1..][..k - 1] == b[..k][1..];
          assert a[1..][k - 1] < b[1..][k - 1];
        }
      } else {
        assert a[..0] == b[..0];
        if k :| 0 <= k < |a| && k < |b| && a[..k] == b[..k] && a[k] < b[k] {
          assert k > 0 ==> a[..k][0] == b[..k][0];
        }
      }
    }
  }

  function IdsOf(fs: seq<Finding>): (ids: seq<Id>)
    ensures |ids| == |fs|
    ensures forall i :: 0 <= i < |fs| ==> ids[i] == fs[i].id
  {
    seq(|fs|, i requires 0 <= i < |fs| => fs[i].id)
  }

  /** `_prioritize`. */
  function Prioritize(fs: seq<Finding>): seq<Id> {
    IdsOf(SortByRank(fs))
  }

  /** The cursor built at the end of `scan.run`. */
  function FirstCursor(ids: seq<Id>, topN: int): CursorData {
    var shown := Take(ids, topN);
    if shown == [] then CursorData(None, [], Drop(ids, topN), [], false)
    else CursorData(Some(shown[0]), shown[1..], Drop(ids, topN), [], false)
  }

  /** The first cursor presents the prioritised list, whole and in order, and it
      shows something unless nothing is to be shown. */
  lemma FirstCursorPresentsAll(ids: seq<Id>, topN: int)
    ensures Presentation(FirstCursor(ids, topN)) == ids
    ensures FirstCursor(ids, topN).current.None? ==> FirstCursor(ids, topN).pending == []
    ensures topN > 0 ==> (FirstCursor(ids, topN).current.None? <==> ids == [])
  {
    assert Take(ids, topN) + Drop(ids, topN) == ids;
  }

  /** The ids offered are those of the findings, each as often as it was found. */
  lemma {:induction false} PrioritizeIsPermutation(fs: seq<Finding>)
    ensures multiset(Prioritize(fs)) == multiset(IdsOf(fs))
  {
    if fs != [] {
      var front := fs[..|fs| - 1];
      PrioritizeIsPermutation(front);
      InsertedIds(fs[|fs| - 1], SortByRank(front));
      assert IdsOf(fs) == IdsOf(front) + [fs[|fs| - 1].id];
    }
  }

  lemma PrioritizeMembers(fs: seq<Finding>)
    ensures |Prioritize(fs)| == |fs|
    ensures forall x :: x in Prioritize(fs) ==> x in IdsOf(fs)
  {
    PrioritizeIsPermutation(fs);
    SortByRankSorts(fs);
    var ids := Prioritize(fs);
    forall x | x in ids ensures x in IdsOf(fs) {
      assert x in multiset(ids);
    }
  }

  lemma {:induction false} InsertedIds(f: Finding, fs: seq<Finding>)
    ensures multiset(IdsOf(Insert(f, fs))) == multiset(IdsOf(fs)) + multiset{f.id}
  {
    if fs == [] || !RankLe(fs[0], f) {
      assert IdsOf([f] + fs) == [f.id] + IdsOf(fs);
    } else {
      InsertedIds(f, fs[1..]);
      assert IdsOf(fs) == [fs[0].id] + IdsOf(fs[1..]);
      assert IdsOf(Insert(f, fs)) == [fs[0].id] + IdsOf(Insert(f, fs[1..]));
    }
  }

  lemma RankedSplit(s: seq<Finding>, n: int, x: Finding, y: Finding)
    requires Ranked(s)
    requires x in Take(s, n) && y in Drop(s, n)
    ensures RankLe(x, y)
  {
    var k := Cut(|s|, n);
    var i :| 0 <= i < k && s[..k][i] == x;
    var j :| 0 <= j < |s| - k && s[k..][j] == y;
    assert s[i] == x && s[k + j] == y;
  }

  /** No finding put off outranks one that is shown, and a BLOCKER is put off only when
      every finding shown is a BLOCKER. */
  lemma DeferredNeverOutranksShown(fs: seq<Finding>, topN: int, x: Finding, y: Finding)
    requires x in Take(SortByRank(fs), topN) && y in Drop(SortByRank(fs), topN)
    ensures RankLe(x, y)
    ensures y.severity.Blocker? ==> x.severity.Blocker?
  {
    SortByRankSorts(fs);
    RankedSplit(SortByRank(fs), topN, x, y);
  }

  /** The split of the ids is the split of the ranked findings. */
  lemma FirstCursorSplitsRanked(fs: seq<Finding>, topN: int)
    ensures var c := FirstCursor(Prioritize(fs), topN);
            CurrentSeq(c) + c.pending == IdsOf(Take(SortByRank(fs), topN)) &&
            c.deferred == IdsOf(Drop(SortByRank(fs), topN))
  {
    var s := SortByRank(fs);
    assert Take(IdsOf(s), topN) == IdsOf(Take(s, topN));
    assert Drop(IdsOf(s), topN) == IdsOf(Drop(s, topN));
  }

  /** In numbers: with topN >= 0 that many findings are shown, or all if there are not as many; the rest
      is deferred. */
  lemma ShownExactly(fs: seq<Finding>, topN: int)
    requires topN >= 0
    ensures var c := FirstCursor(Prioritize(fs), topN);
            var shown := if topN < |fs| then topN else |fs|;
            && |CurrentSeq(c) + c.pending| == shown && |c.deferred| == |fs| - shown
            && CurrentSeq(c) + c.pending == Prioritize(fs)[..shown] && c.deferred == Prioritize(fs)[shown..]
            && c.done == [] && !c.rescan
  {
    PrioritizeMembers(fs);
  }

  /** The cursor once every question in line has been advanced past. */
  function AdvancedAll(c: CursorData): CursorData
    decreases |CurrentSeq(c)| + |c.pending|
  {
    if c.current.None? then c else AdvancedAll(Advanced(c))
  }

  lemma {:induction false} DoneStaysDistinct(c: CursorData)
    requires Distinct(c.done)
    ensures Distinct(AdvancedAll(c).done)
    decreases |CurrentSeq(c)| + |c.pending|
  {
    if c.current.Some? {
      DoneStaysDistinct(Advanced(c));
    }
  }

  lemma {:induction false} AdvancedAllKeepsOrder(c: CursorData)
    requires Distinct(Presentation(c)) && (c.current.None? ==> c.pending == [])
    ensures var d := AdvancedAll(c); Presentation(d) == Presentation(c) == d.done + d.deferred
    ensures AdvancedAll(c).deferred == c.deferred
    decreases |CurrentSeq(c)| + |c.pending|
  {
    if c.current.Some? {
      AdvancedKeepsOrder(c);
      AdvancedAllKeepsOrder(Advanced(c));
    }
  }

  /** Answering everything leaves `done` equal to the prioritised list exactly when the scan
      gave distinct ids; a repeated id is recorded once only. */
  lemma AllAnsweredIff(ids: seq<Id>)
    ensures AdvancedAll(FirstCursor(ids, |ids|)).done == ids <==> Distinct(ids)
  {
    var c := FirstCursor(ids, |ids|);
    FirstCursorPresentsAll(ids, |ids|);
    DoneStaysDistinct(c);
    if Distinct(ids) {
      AdvancedAllKeepsOrder(c);
      assert c.deferred == [];
    }
  }
}
