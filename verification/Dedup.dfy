/** review_agent/slack/adapter.py `_MessageDedup`: a bounded cache of seen keys, compared with a log
    that forgets nothing. */
module Dedup {
  import opened Models

  /** The dict, in insertion order: overwriting a key keeps its place. */
  datatype Entry = Entry(key: string, expiry: real)

  datatype Record = Record(key: string, at: real)

  function Find(c: seq<Entry>, key: string): (i: Option<nat>)
    ensures i.Some? ==> i.value < |c| && c[i.value].key == key
    ensures i.None? ==> forall j :: 0 <= j < |c| ==> c[j].key != key
  {
    if c == [] then None
    else if c[|c| - 1].key == key then Some(|c| - 1)
    else Find(c[..|c| - 1], key)
  }

  predicate Live(c: seq<Entry>, key: string, now: real) {
    Find(c, key).Some? && c[Find(c, key).value].expiry > now
  }

  function Stored(c: seq<Entry>, key: string, expiry: real): seq<Entry> {
    if Find(c, key).Some? then c[Find(c, key).value := Entry(key, expiry)] else c + [Entry(key, expiry)]
  }

  function Insert(e: Entry, s: seq<Entry>): seq<Entry> {
    if s == [] || s[|s| - 1].expiry <= e.expiry then s + [e]
    else Insert(e, s[..|s| - 1]) + [s[|s| - 1]]
  }

  /** `sorted(items, key=expiry)`, stable. */
  function Sorted(c: seq<Entry>): seq<Entry> {
    if c == [] then [] else Insert(c[|c| - 1], Sorted(c[..|c| - 1]))
  }

  /** `pop(k, None)`. */
  function Popped(c: seq<Entry>, key: string): seq<Entry> {
    if Find(c, key).Some? then c[..Find(c, key).value] + c[Find(c, key).value + 1..] else c
  }

  function PoppedAll(c: seq<Entry>, es: seq<Entry>): seq<Entry>
    decreases |es|
  {
    if es == [] then c else PoppedAll(Popped(c, es[0].key), es[1..])
  }

  /** `sorted(...)[: max // 10]`. */
  function Oldest(c: seq<Entry>, max: int): seq<Entry> {
    Take(Sorted(c), max / 10)
  }

  function Evicted(c: seq<Entry>, max: int): seq<Entry> {
    PoppedAll(c, Oldest(c, max))
  }

  /** `seen`: the answer and the cache afterwards. */
  function Seen(c: seq<Entry>, max: int, ttl: real, key: string, now: real): (bool, seq<Entry>) {
    if Live(c, key, now) then (true, c)
    else
      var d := Stored(c, key, now + ttl);
      (false, if |d| > max then Evicted(d, max) else d)
  }

  class MessageDedup {
    const max: int
    const ttl: real
    var cache: seq<Entry>

    constructor (max: int, ttl: real)
      ensures this.max == max && this.ttl == ttl && cache == []
    {
      this.max, this.ttl, cache := max, ttl, [];
    }

    method SeenBefore(key: string, now: real) returns (b: bool)
      modifies this
      ensures (b, cache) == Seen(old(cache), max, ttl, key, now)
    {
      var at := Find(cache, key);
      if at.Some? && cache[at.value].expiry > now {
        return true;
      }
      if at.Some? {
        cache := cache[at.value := Entry(key, now + ttl)];
      } else {
        cache := cache + [Entry(key, now + ttl)];
      }
      if |cache| > max {
        ghost var d := cache;
        var oldest := Oldest(cache, max);
        for i := 0 to |oldest|
          invariant PoppedAll(cache, oldest[i..]) == PoppedAll(d, oldest)
        {
          assert oldest[i..][1..] == oldest[i + 1..];
          var j := Find(cache, oldest[i].key);
          if j.Some? {
            cache := cache[..j.value] + cache[j.value + 1..];
          }
        }
      }
      return false;
    }
  }

  // ── the cache as a set of entries ───────────────────────

  ghost predicate DistinctKeys(c: seq<Entry>) {
    forall i, j :: 0 <= i < j < |c| ==> c[i].key != c[j].key
  }

  lemma DistinctFind(c: seq<Entry>, i: nat)
    requires DistinctKeys(c) && i < |c|
    ensures Find(c, c[i].key) == Some(i)
  {
  }

  lemma StoredEntries(c: seq<Entry>, key: string, x: real)
    requires DistinctKeys(c)
    ensures DistinctKeys(Stored(c, key, x))
    ensures forall e :: e in Stored(c, key, x) <==> e == Entry(key, x) || (e in c && e.key != key)
    ensures |Stored(c, key, x)| == |c| + if Find(c, key).Some? then 0 else 1
  {
    var d := Stored(c, key, x);
    forall e ensures e in d <==> e == Entry(key, x) || (e in c && e.key != key) {
      if e in d {
        var i :| 0 <= i < |d| && d[i] == e;
      }
      if e in c && e.key != key {
        var i :| 0 <= i < |c| && c[i] == e;
        assert d[i] == e;
      }
      if e == Entry(key, x) {
        assert Find(c, key).Some? ==> d[Find(c, key).value] == e;
        assert Find(c, key).None? ==> d[|c|] == e;
      }
    }
  }

  lemma WithoutOne(c: seq<Entry>, i: nat, f: Entry)
    requires DistinctKeys(c) && i < |c|
    ensures f in c[..i] + c[i + 1..] <==> f in c && f != c[i]
  {
    var d := c[..i] + c[i + 1..];
    if f in d {
      var j :| 0 <= j < |d| && d[j] == f;
      var k := if j < i then j else j + 1;
      assert c[k] == f && k != i;
      assert c[k].key != c[i].key;
    }
    if f in c && f != c[i] {
      var k :| 0 <= k < |c| && c[k] == f;
      assert d[if k < i then k else k - 1] == f;
    }
  }

  lemma WithoutOneDistinct(c: seq<Entry>, i: nat)
    requires DistinctKeys(c) && i < |c|
    ensures DistinctKeys(c[..i] + c[i + 1..])
  {
  }

  lemma PoppedEntries(c: seq<Entry>, e: Entry)
    requires DistinctKeys(c) && e in c
    ensures var d := Popped(c, e.key);
            DistinctKeys(d) && |d| == |c| - 1 && forall f :: f in d <==> f in c && f != e
  {
    var i :| 0 <= i < |c| && c[i] == e;
    DistinctFind(c, i);
    WithoutOneDistinct(c, i);
    forall f ensures f in Popped(c, e.key) <==> f in c && f != e {
      WithoutOne(c, i, f);
    }
  }

  lemma {:induction false} PoppedAllEntries(c: seq<Entry>, es: seq<Entry>)
    requires DistinctKeys(c) && DistinctKeys(es) && forall e :: e in es ==> e in c
    ensures var d := PoppedAll(c, es);
            DistinctKeys(d) && |d| == |c| - |es| && forall f :: f in d <==> f in c && f !in es
    decreases |es|
  {
    if es != [] {
      assert es[0] in es;
      PoppedEntries(c, es[0]);
      var d := Popped(c, es[0].key);
      forall e | e in es[1..] ensures e in d {
        var j :| 0 <= j < |es[1..]| && es[1..][j] == e;
        assert es[j + 1] == e;
      }
      PoppedAllEntries(d, es[1..]);
      assert es == [es[0]] + es[1..];
    }
  }

  // ── the sort ────────────────────────────────────────────

  ghost predicate InOrder(s: seq<Entry>) {
    forall i, j :: 0 <= i < j < |s| ==> s[i].expiry <= s[j].expiry
  }

  lemma {:induction false} InsertedEntries(e: Entry, s: seq<Entry>)
    ensures |Insert(e, s)| == |s| + 1
    ensures forall f :: f in Insert(e, s) <==> f == e || f in s
  {
    if s != [] && s[|s| - 1].expiry > e.expiry {
      InsertedEntries(e, s[..|s| - 1]);
      assert s == s[..|s| - 1] + [s[|s| - 1]];
    }
  }

  lemma {:induction false} InsertInOrder(e: Entry, s: seq<Entry>)
    requires InOrder(s)
    ensures InOrder(Insert(e, s))
  {
    if s != [] && s[|s| - 1].expiry > e.expiry {
      var front := s[..|s| - 1];
      InsertInOrder(e, front);
      InsertedEntries(e, front);
      var t := Insert(e, front);
      forall i | 0 <= i < |t| ensures t[i].expiry <= s[|s| - 1].expiry {
        assert t[i] in t;
      }
    }
  }

  lemma {:induction false} InsertDistinct(e: Entry, s: seq<Entry>)
    requires DistinctKeys(s) && forall f :: f in s ==> f.key != e.key
    ensures DistinctKeys(Insert(e, s))
  {
    if s != [] && s[|s| - 1].expiry > e.expiry {
      var front, last := s[..|s| - 1], s[|s| - 1];
      assert last in s && forall f :: f in front ==> f in s && f.key != last.key;
      InsertDistinct(e, front);
      InsertedEntries(e, front);
      var t := Insert(e, front);
      forall i | 0 <= i < |t| ensures t[i].key != last.key {
        assert t[i] in t;
      }
    }
  }

  lemma {:induction false} SortedEntries(c: seq<Entry>)
    requires DistinctKeys(c)
    ensures var s := Sorted(c); InOrder(s) && |s| == |c| && DistinctKeys(s) && forall e :: e in s <==> e in c
  {
    if c != [] {
      var front, last := c[..|c| - 1], c[|c| - 1];
      assert c == front + [last];
      SortedEntries(front);
      InsertInOrder(last, Sorted(front));
      InsertedEntries(last, Sorted(front));
      InsertDistinct(last, Sorted(front));
    }
  }

  /** A new entry that expires last is sorted last, ties included. */
  lemma NewestSortsLast(c: seq<Entry>, e: Entry)
    requires DistinctKeys(c) && forall f :: f in c ==> f.expiry <= e.expiry
    ensures Sorted(c + [e]) == Sorted(c) + [e]
  {
    assert (c + [e])[..|c|] == c;
    SortedEntries(c);
    assert Sorted(c) != [] ==> Sorted(c)[|Sorted(c)| - 1] in Sorted(c);
  }

  // ── one call ────────────────────────────────────────────

  /** A key has been seen exactly if its record has not expired, and then nothing changes. Otherwise it is
      recorded with its new expiry, in its old place or as the newest; and only if that makes the cache too
      big, a tenth of the bound is evicted, none of which expires after any that stays. */
  lemma SeenMeans(c: seq<Entry>, max: int, ttl: real, key: string, now: real)
    requires DistinctKeys(c)
    ensures var (b, d) := Seen(c, max, ttl, key, now);
            && (b <==> exists i :: 0 <= i < |c| && c[i].key == key && c[i].expiry > now)
            && (b ==> d == c)
    ensures forall i :: 0 <= i < |c| && c[i].key == key && c[i].expiry <= now && |c| <= max ==>
              Seen(c, max, ttl, key, now) == (false, c[i := Entry(key, now + ttl)])
    ensures (forall i :: 0 <= i < |c| ==> c[i].key != key) && |c| < max ==>
              Seen(c, max, ttl, key, now) == (false, c + [Entry(key, now + ttl)])
  {
    forall i | 0 <= i < |c| && c[i].key == key ensures Find(c, key) == Some(i) {
      DistinctFind(c, i);
    }
  }

  lemma FullCacheEvicts(c: seq<Entry>, max: int, ttl: real, key: string, now: real)
    requires DistinctKeys(c) && |c| == max >= 10 && forall i :: 0 <= i < |c| ==> c[i].key != key
    ensures var (b, d) := Seen(c, max, ttl, key, now);
            && !b && |d| == max + 1 - max / 10
            && (forall f :: f in d ==> f in c || f == Entry(key, now + ttl))
            && (forall f, g :: f in c && f !in d && g in d ==> f.expiry <= g.expiry)
  {
    hide Sorted, Oldest, Evicted, Popped, PoppedAll;
    var all := c + [Entry(key, now + ttl)];
    assert Find(c, key).None?;
    StoredEntries(c, key, now + ttl);
    EvictedEntries(all, max);
    forall f, g | f in Oldest(all, max) && g in all && g !in Oldest(all, max) ensures f.expiry <= g.expiry {
      OldestFirst(all, max, f, g);
    }
    assert forall f :: f in c ==> f in all;
  }

  lemma OldestFirst(d: seq<Entry>, max: int, f: Entry, g: Entry)
    requires max >= 10 && |d| == max + 1 && DistinctKeys(d)
    requires f in Oldest(d, max) && g in d && g !in Oldest(d, max)
    ensures f.expiry <= g.expiry
  {
    hide Sorted;
    SortedEntries(d);
    var s, m := Sorted(d), max / 10;
    assert Oldest(d, max) == s[..m] && g in s;
    var i :| 0 <= i < m && s[..m][i] == f;
    var j :| 0 <= j < |s| && s[j] == g;
    assert j >= m;
  }

  // ── against the perfect log ─────────────────────────────

  ghost predicate RecordedSince(log: seq<Record>, key: string, at: real) {
    exists r :: r in log && r.key == key && r.at >= at
  }

  ghost predicate CrowdedBy(log: seq<Record>, r: Record, max: int, ks: set<string>) {
    && |ks| >= max + 1 - max / 10
    && r.key !in ks
    && forall k :: k in ks ==> RecordedSince(log, k, r.at)
  }

  /** Enough other keys were recorded no earlier to push this record out. */
  ghost predicate Crowded(log: seq<Record>, r: Record, max: int) {
    exists ks: set<string> :: CrowdedBy(log, r, max, ks)
  }

  ghost predicate Kept(c: seq<Entry>, r: Record, ttl: real) {
    exists e :: e in c && e.key == r.key && e.expiry >= r.at + ttl
  }

  ghost predicate Backed(log: seq<Record>, e: Entry, ttl: real) {
    exists r :: r in log && r.key == e.key && r.at + ttl == e.expiry
  }

  /** Every entry stems from a record, and none is from the future. */
  ghost predicate AllBacked(c: seq<Entry>, log: seq<Record>, ttl: real, now: real) {
    && (forall e :: e in c ==> Backed(log, e, ttl))
    && (forall r :: r in log ==> r.at <= now)
  }

  /** Every record is still in the cache or was crowded out. */
  ghost predicate Accounted(c: seq<Entry>, log: seq<Record>, max: int, ttl: real) {
    forall r :: r in log ==> Kept(c, r, ttl) || Crowded(log, r, max)
  }

  ghost predicate Consistent(c: seq<Entry>, log: seq<Record>, max: int, ttl: real, now: real) {
    DistinctKeys(c) && |c| <= max && AllBacked(c, log, ttl, now) && Accounted(c, log, max, ttl)
  }

  lemma BackedIsPast(c: seq<Entry>, log: seq<Record>, ttl: real, now: real, e: Entry)
    requires AllBacked(c, log, ttl, now) && e in c
    ensures e.expiry <= now + ttl
  {
    assert Backed(log, e, ttl);
  }

  lemma CrowdedMonotone(log: seq<Record>, last: Record, r: Record, max: int)
    requires Crowded(log, r, max)
    ensures Crowded(log + [last], r, max)
  {
    var ks :| CrowdedBy(log, r, max, ks);
    forall k | k in ks ensures RecordedSince(log + [last], k, r.at) {
      var q :| q in log && q.key == k && q.at >= r.at;
      assert q in log + [last];
    }
    assert CrowdedBy(log + [last], r, max, ks);
  }

  ghost function KeySet(s: seq<Entry>): set<string> {
    if s == [] then {} else {s[0].key} + KeySet(s[1..])
  }

  lemma {:induction false} KeySetOf(s: seq<Entry>)
    requires DistinctKeys(s)
    ensures |KeySet(s)| == |s|
    ensures forall k :: k in KeySet(s) ==> exists i :: 0 <= i < |s| && s[i].key == k
  {
    if s != [] {
      KeySetOf(s[1..]);
      forall k | k in KeySet(s) ensures exists i :: 0 <= i < |s| && s[i].key == k {
        if k == s[0].key {
        } else {
          var i :| 0 <= i < |s[1..]| && s[1..][i].key == k;
          assert s[i + 1].key == k;
        }
      }
    }
  }

  lemma StoreBacked(c: seq<Entry>, log: seq<Record>, ttl: real, before: real, key: string, now: real)
    requires DistinctKeys(c) && AllBacked(c, log, ttl, before) && before <= now
    ensures AllBacked(Stored(c, key, now + ttl), log + [Record(key, now)], ttl, now)
  {
    var d, l := Stored(c, key, now + ttl), log + [Record(key, now)];
    StoredEntries(c, key, now + ttl);
    forall e | e in d ensures Backed(l, e, ttl) {
      if e == Entry(key, now + ttl) {
        assert Record(key, now) in l;
      } else {
        assert Backed(log, e, ttl);
        var r :| r in log && r.key == e.key && r.at + ttl == e.expiry;
        assert r in l;
      }
    }
  }

  lemma StoreAccounted(c: seq<Entry>, log: seq<Record>, max: int, ttl: real, before: real, key: string, now: real)
    requires DistinctKeys(c) && AllBacked(c, log, ttl, before) && Accounted(c, log, max, ttl) && before <= now
    ensures Accounted(Stored(c, key, now + ttl), log + [Record(key, now)], max, ttl)
  {
    var d, l := Stored(c, key, now + ttl), log + [Record(key, now)];
    StoredEntries(c, key, now + ttl);
    forall r | r in l ensures Kept(d, r, ttl) || Crowded(l, r, max) {
      if r.key == key {
        assert Entry(key, now + ttl) in d;
        assert r == Record(key, now) || r in log;
      } else {
        assert r in log;
        if Kept(c, r, ttl) {
          var e :| e in c && e.key == r.key && e.expiry >= r.at + ttl;
          assert e in d;
        } else {
          CrowdedMonotone(log, Record(key, now), r, max);
        }
      }
    }
  }

  /** An evicted entry is crowded out by those that stay. */
  lemma EvictedAreCrowded(s: seq<Entry>, l: seq<Record>, m: nat, max: int, ttl: real, i: nat, r: Record)
    requires m == max / 10 && i < m <= |s| == max + 1 && DistinctKeys(s) && InOrder(s)
    requires forall f :: f in s ==> Backed(l, f, ttl)
    requires r.key == s[i].key && r.at + ttl <= s[i].expiry
    ensures Crowded(l, r, max)
  {
    var stay := s[m..];
    KeySetOf(stay);
    forall k | k in KeySet(stay) ensures k != r.key && RecordedSince(l, k, r.at) {
      var j :| 0 <= j < |stay| && stay[j].key == k;
      var f := s[m + j];
      assert f == stay[j] && f in s;
      assert s[i].key != s[m + j].key && s[i].expiry <= s[m + j].expiry;
      assert Backed(l, f, ttl);
      var q :| q in l && q.key == f.key && q.at + ttl == f.expiry;
    }
    assert CrowdedBy(l, r, max, KeySet(stay));
  }

  lemma EvictedEntries(d: seq<Entry>, max: int)
    requires max >= 10 && |d| == max + 1 && DistinctKeys(d)
    ensures DistinctKeys(Evicted(d, max)) && |Evicted(d, max)| == max + 1 - max / 10
    ensures forall f :: f in Evicted(d, max) <==> f in d && f !in Oldest(d, max)
  {
    SortedEntries(d);
    var out := Oldest(d, max);
    assert out == Sorted(d)[..max / 10];
    forall f | f in out ensures f in d {
      assert f in Sorted(d);
    }
    PoppedAllEntries(d, out);
  }

  lemma OldestAreCrowded(d: seq<Entry>, l: seq<Record>, max: int, ttl: real, e: Entry, r: Record)
    requires max >= 10 && |d| == max + 1 && DistinctKeys(d)
    requires forall f :: f in d ==> Backed(l, f, ttl)
    requires e in Oldest(d, max) && r.key == e.key && r.at + ttl <= e.expiry
    ensures Crowded(l, r, max)
  {
    SortedEntries(d);
    var i :| 0 <= i < max / 10 && Oldest(d, max)[i] == e;
    assert Sorted(d)[i] == e;
    EvictedAreCrowded(Sorted(d), l, max / 10, max, ttl, i, r);
  }

  lemma EvictAccounted(d: seq<Entry>, l: seq<Record>, max: int, ttl: real, now: real)
    requires max >= 10 && |d| == max + 1 && DistinctKeys(d)
    requires AllBacked(d, l, ttl, now) && Accounted(d, l, max, ttl)
    ensures AllBacked(Evicted(d, max), l, ttl, now) && Accounted(Evicted(d, max), l, max, ttl)
  {
    EvictedEntries(d, max);
    forall r | r in l ensures Kept(Evicted(d, max), r, ttl) || Crowded(l, r, max) {
      if Kept(d, r, ttl) {
        var e :| e in d && e.key == r.key && e.expiry >= r.at + ttl;
        if e in Oldest(d, max) {
          OldestAreCrowded(d, l, max, ttl, e, r);
        } else {
          assert e in Evicted(d, max);
        }
      }
    }
  }

  lemma JustRecordedStays(c: seq<Entry>, e: Entry, max: int)
    requires DistinctKeys(c) && (forall f :: f in c ==> f.key != e.key && f.expiry <= e.expiry)
    requires max >= 10 && |c| == max
    ensures e !in Oldest(c + [e], max)
  {
    hide Sorted;
    NewestSortsLast(c, e);
    SortedEntries(c);
    assert Oldest(c + [e], max) == Sorted(c)[..max / 10];
    assert forall f :: f in Sorted(c)[..max / 10] ==> f in Sorted(c);
  }

  /** The part of a call that records a key it has no room for. */
  lemma FullCacheConsistent(c: seq<Entry>, log: seq<Record>, max: int, ttl: real, before: real, key: string, now: real)
    requires max >= 10 && Consistent(c, log, max, ttl, before) && before <= now
    requires Find(c, key).None? && |c| == max
    ensures var k := Evicted(c + [Entry(key, now + ttl)], max);
            Consistent(k, log + [Record(key, now)], max, ttl, now) && Entry(key, now + ttl) in k
  {
    var e, l := Entry(key, now + ttl), log + [Record(key, now)];
    var d := c + [e];
    StoredEntries(c, key, now + ttl);
    StoreBacked(c, log, ttl, before, key, now);
    StoreAccounted(c, log, max, ttl, before, key, now);
    EvictedEntries(d, max);
    EvictAccounted(d, l, max, ttl, now);
    forall f | f in c ensures f.key != e.key && f.expiry <= e.expiry {
      BackedIsPast(c, log, ttl, before, f);
    }
    JustRecordedStays(c, e, max);
    assert e in d;
  }

  lemma RoomyCacheConsistent(c: seq<Entry>, log: seq<Record>, max: int, ttl: real, before: real, key: string, now: real)
    requires Consistent(c, log, max, ttl, before) && before <= now
    requires Find(c, key).Some? || |c| < max
    ensures var k := Stored(c, key, now + ttl);
            Consistent(k, log + [Record(key, now)], max, ttl, now) && Entry(key, now + ttl) in k
  {
    StoredEntries(c, key, now + ttl);
    StoreBacked(c, log, ttl, before, key, now);
    StoreAccounted(c, log, max, ttl, before, key, now);
  }

  /** With room for at least ten keys and a clock that does not run backwards, a call that records
      a key keeps the size bound, keeps that key, and forgets a record only when enough other keys
      were recorded no earlier. */
  lemma SeenConsistent(c: seq<Entry>, log: seq<Record>, max: int, ttl: real, before: real, key: string, now: real)
    requires max >= 10 && Consistent(c, log, max, ttl, before) && before <= now
    ensures var (b, k) := Seen(c, max, ttl, key, now);
            && Consistent(k, if b then log else log + [Record(key, now)], max, ttl, now)
            && (!b ==> Entry(key, now + ttl) in k)
  {
    if Live(c, key, now) {
    } else if Find(c, key).Some? || |c| < max {
      StoredEntries(c, key, now + ttl);
      RoomyCacheConsistent(c, log, max, ttl, before, key, now);
    } else {
      FullCacheConsistent(c, log, max, ttl, before, key, now);
    }
  }

  // ── runs ────────────────────────────────────────────────

  function Calls(c: seq<Entry>, max: int, ttl: real, calls: seq<Record>): seq<Entry>
    decreases |calls|
  {
    if calls == [] then c else Calls(Seen(c, max, ttl, calls[0].key, calls[0].at).1, max, ttl, calls[1..])
  }

  /** The perfect log: every call answered "not seen", with its time. */
  function PerfectLog(c: seq<Entry>, max: int, ttl: real, calls: seq<Record>): seq<Record>
    decreases |calls|
  {
    if calls == [] then []
    else
      var (b, k) := Seen(c, max, ttl, calls[0].key, calls[0].at);
      (if b then [] else [calls[0]]) + PerfectLog(k, max, ttl, calls[1..])
  }

  predicate Timely(now: real, calls: seq<Record>)
    decreases |calls|
  {
    calls == [] || (now <= calls[0].at && Timely(calls[0].at, calls[1..]))
  }

  function LastTime(now: real, calls: seq<Record>): real
    decreases |calls|
  {
    if calls == [] then now else LastTime(calls[0].at, calls[1..])
  }

  lemma {:induction false} CallsConsistent(c: seq<Entry>, log: seq<Record>, max: int, ttl: real, now: real,
      calls: seq<Record>)
    requires max >= 10 && Consistent(c, log, max, ttl, now) && Timely(now, calls)
    ensures Consistent(Calls(c, max, ttl, calls), log + PerfectLog(c, max, ttl, calls), max, ttl, LastTime(now, calls))
    decreases |calls|
  {
    if calls == [] {
      assert log + [] == log;
    } else {
      var r := calls[0];
      var (b, k) := Seen(c, max, ttl, r.key, r.at);
      SeenConsistent(c, log, max, ttl, now, r.key, r.at);
      CallsConsistent(k, if b then log else log + [r], max, ttl, r.at, calls[1..]);
      FirstCall(c, log, max, ttl, calls);
    }
  }

  lemma FirstCall(c: seq<Entry>, log: seq<Record>, max: int, ttl: real, calls: seq<Record>)
    requires calls != []
    ensures var (b, k) := Seen(c, max, ttl, calls[0].key, calls[0].at);
            && Calls(c, max, ttl, calls) == Calls(k, max, ttl, calls[1..])
            && log + PerfectLog(c, max, ttl, calls) ==
               (if b then log else log + [calls[0]]) + PerfectLog(k, max, ttl, calls[1..])
  {
  }

  /** After any timely calls on an empty cache: it holds at most max keys; a key is answered "seen"
      only if it was recorded less than ttl ago; and if such a record is not answered "seen", at
      least max + 1 - max / 10 other keys were recorded no earlier. */
  lemma AgainstPerfectLog(max: int, ttl: real, start: real, calls: seq<Record>, key: string, now: real)
    requires max >= 10 && Timely(start, calls) && LastTime(start, calls) <= now
    ensures var c, log := Calls([], max, ttl, calls), PerfectLog([], max, ttl, calls);
            && |c| <= max
            && (Seen(c, max, ttl, key, now).0 ==>
                  exists r :: r in log && r.key == key && now - r.at < ttl)
            && (!Seen(c, max, ttl, key, now).0 ==>
                  forall r :: r in log && r.key == key && now - r.at < ttl ==> Crowded(log, r, max))
  {
    CallsConsistent([], [], max, ttl, start, calls);
    var c, log := Calls([], max, ttl, calls), PerfectLog([], max, ttl, calls);
    assert [] + log == log;
    ConsistentAnswers(c, log, max, ttl, LastTime(start, calls), key, now);
  }

  lemma ConsistentAnswers(c: seq<Entry>, log: seq<Record>, max: int, ttl: real, before: real, key: string, now: real)
    requires Consistent(c, log, max, ttl, before)
    ensures Live(c, key, now) ==> exists r :: r in log && r.key == key && now - r.at < ttl
    ensures !Live(c, key, now) ==> forall r :: r in log && r.key == key && now - r.at < ttl ==> Crowded(log, r, max)
  {
    if Live(c, key, now) {
      var e := c[Find(c, key).value];
      assert e in c;
      assert Backed(log, e, ttl);
      var r :| r in log && r.key == e.key && r.at + ttl == e.expiry;
      assert now - r.at < ttl;
    } else {
      forall r | r in log && r.key == key && now - r.at < ttl ensures Crowded(log, r, max) {
        NotLiveNotKept(c, r, ttl, now);
      }
    }
  }

  lemma NotLiveNotKept(c: seq<Entry>, r: Record, ttl: real, now: real)
    requires DistinctKeys(c) && !Live(c, r.key, now) && now - r.at < ttl
    ensures !Kept(c, r, ttl)
  {
    forall e | e in c && e.key == r.key ensures e.expiry < r.at + ttl {
      var j :| 0 <= j < |c| && c[j] == e;
      DistinctFind(c, j);
    }
  }

  /** Below ten nothing is ever evicted, so the size bound fails: every new key makes the cache
      grow, however large it already is. */
  lemma SmallCacheGrows(c: seq<Entry>, max: int, ttl: real, key: string, now: real)
    requires 0 <= max < 10
    ensures |Seen(c, max, ttl, key, now).1| == |c| + if Find(c, key).Some? then 0 else 1
  {
  }
}
