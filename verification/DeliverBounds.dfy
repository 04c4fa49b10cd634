/** How often a recipient is sent the same DM, however often delivery is retried. */
module DeliverBounds {
  import opened Delivering
  import opened DeliverRetries

  /** An accepted DM to this recipient. */
  predicate DmTo(r: Sent, oid: string) {
    r.kind.LarkDm? && r.ok && r.to == oid
  }

  /** What a doc is recognised by: its recipient and the hash of its payload. */
  function DocKey(c: Context, t: Target): (string, string) {
    (t.openId, BodyHash(c, t, ""))
  }

  /** The keys that have an ok row. */
  ghost function SentKeys(log: seq<Sent>, ks: set<(string, string)>): set<(string, string)> {
    set k | k in ks && AlreadySent(log, k.0, k.1)
  }

  /** The DMs to the recipient have these hashes. */
  ghost predicate Among(log: seq<Sent>, oid: string, forms: set<string>) {
    forall i :: 0 <= i < |log| && DmTo(log[i], oid) ==> log[i].hash in forms
  }

  /** A target of a run whose docs have these keys, and whose DMs to the recipient carry this text. */
  predicate Fits(c: Context, t: Target, oid: string, text: string, ks: set<(string, string)>) {
    && Addressed(t)
    && (t.kind.LarkDoc? ==> DocKey(c, t) in ks)
    && (t.kind.LarkDm? && t.openId == oid ==> TextFor(c, t) == text)
  }

  predicate AllFit(c: Context, ts: seq<Target>, oid: string, text: string, ks: set<(string, string)>) {
    forall i :: 0 <= i < |ts| ==> Fits(c, ts[i], oid, text, ks)
  }

  /** No more texts than the plain one and one for each doc that has been sent; the plain one is
      among them, and so is the one with the URL at hand. */
  ghost predicate Bounded(c: Context, l: Loop, oid: string, text: string, ks: set<(string, string)>,
                          forms: set<string>) {
    && Among(l.log, oid, forms) && |forms| <= |SentKeys(l.log, ks)| + 1
    && Digest(c, text) in forms && Digest(c, text + l.docUrl) in forms
  }

  // ── one target, one run, all runs ───────────────────────

  lemma {:induction false} SubsetSize<T>(a: set<T>, b: set<T>)
    requires a <= b
    ensures |a| <= |b|
  {
    if a != {} {
      var x :| x in a;
      SubsetSize(a - {x}, b - {x});
    }
  }

  lemma KeysStay(log: seq<Sent>, more: seq<Sent>, ks: set<(string, string)>)
    requires log <= more
    ensures SentKeys(log, ks) <= SentKeys(more, ks) && |SentKeys(log, ks)| <= |SentKeys(more, ks)|
  {
    forall k | k in SentKeys(log, ks) ensures k in SentKeys(more, ks) {
      SentStays(log, more, k.0, k.1);
    }
    SubsetSize(SentKeys(log, ks), SentKeys(more, ks));
  }

  /** A doc that gives a URL has just been sent for the first time. */
  lemma NewKey(c: Context, log: seq<Sent>, t: Target, docUrl: string, a: Answer, ks: set<(string, string)>)
    requires t.kind.LarkDoc? && t.openId != "" && DocKey(c, t) in ks && OneUrl(c, log, t, docUrl, a) != ""
    ensures |SentKeys(OneLog(c, log, t, docUrl, a), ks)| > |SentKeys(log, ks)|
  {
    var after, k := OneLog(c, log, t, docUrl, a), DocKey(c, t);
    assert after[|log|] == RowFor(c, t, docUrl, true);
    assert AlreadySent(after, k.0, k.1) && !AlreadySent(log, k.0, k.1);
    KeysStay(log, after, ks);
    SubsetSize(SentKeys(log, ks) + {k}, SentKeys(after, ks));
  }

  lemma OneAmong(c: Context, log: seq<Sent>, t: Target, docUrl: string, a: Answer, oid: string, forms: set<string>)
    requires Among(log, oid, forms) && Addressed(t)
    requires t.kind.LarkDm? && t.openId == oid ==> Digest(c, TextFor(c, t) + docUrl) in forms
    ensures Among(OneLog(c, log, t, docUrl, a), oid, forms)
  {
  }

  function AfterOne(c: Context, l: Loop, t: Target, a: Answer): Loop {
    var url := if t.kind.LarkDoc? then OneUrl(c, l.log, t, l.docUrl, a) else "";
    Loop(OneLog(c, l.log, t, l.docUrl, a), if url != "" then url else l.docUrl,
         l.ok && OneOk(c, l.log, t, l.docUrl, a))
  }

  lemma OneBounded(c: Context, l: Loop, t: Target, a: Answer, oid: string, text: string,
                   ks: set<(string, string)>, forms: set<string>) returns (fs: set<string>)
    requires Bounded(c, l, oid, text, ks, forms) && Fits(c, t, oid, text, ks)
    ensures Bounded(c, AfterOne(c, l, t, a), oid, text, ks, fs)
  {
    var l1 := AfterOne(c, l, t, a);
    OneLogged(c, l.log, t, l.docUrl, a);
    OneAmong(c, l.log, t, l.docUrl, a, oid, forms);
    KeysStay(l.log, l1.log, ks);
    fs := forms;
    if l1.docUrl != l.docUrl {
      NewKey(c, l.log, t, l.docUrl, a, ks);
      fs := forms + {Digest(c, text + l1.docUrl)};
    }
  }

  lemma {:induction false} DocsBounded(c: Context, l: Loop, ts: seq<Target>, answers: seq<Answer>,
                                       oid: string, text: string, ks: set<(string, string)>, forms: set<string>)
    returns (fs: set<string>)
    requires |ts| == |answers| && AllFit(c, ts, oid, text, ks) && forall i :: 0 <= i < |ts| ==> ts[i].kind.LarkDoc?
    requires Bounded(c, l, oid, text, ks, forms)
    ensures Bounded(c, DocLoop(c, l, ts, answers), oid, text, ks, fs)
    decreases |ts|
  {
    fs := forms;
    if ts != [] {
      fs := OneBounded(c, l, ts[0], answers[0], oid, text, ks, fs);
      fs := DocsBounded(c, AfterOne(c, l, ts[0], answers[0]), ts[1..], answers[1..], oid, text, ks, fs);
    }
  }

  lemma {:induction false} OthersBounded(c: Context, l: Loop, ts: seq<Target>, answers: seq<Answer>,
                                         oid: string, text: string, ks: set<(string, string)>, forms: set<string>)
    returns (fs: set<string>)
    requires |ts| == |answers| && AllFit(c, ts, oid, text, ks) && forall i :: 0 <= i < |ts| ==> !ts[i].kind.LarkDoc?
    requires Bounded(c, l, oid, text, ks, forms)
    ensures Bounded(c, OtherLoop(c, l, ts, answers), oid, text, ks, fs)
    decreases |ts|
  {
    fs := forms;
    if ts != [] {
      fs := OneBounded(c, l, ts[0], answers[0], oid, text, ks, fs);
      fs := OthersBounded(c, AfterOne(c, l, ts[0], answers[0]), ts[1..], answers[1..], oid, text, ks, fs);
    }
  }

  lemma PartsFit(c: Context, ts: seq<Target>, oid: string, text: string, ks: set<(string, string)>)
    requires AllFit(c, ts, oid, text, ks)
    ensures AllFit(c, Docs(ts), oid, text, ks) && AllFit(c, Others(ts), oid, text, ks)
    ensures forall i :: 0 <= i < |Docs(ts)| ==> Docs(ts)[i].kind.LarkDoc?
    ensures forall i :: 0 <= i < |Others(ts)| ==> !Others(ts)[i].kind.LarkDoc?
  {
    PartsAreTargets(ts);
    var docs, others := Docs(ts), Others(ts);
    forall i | 0 <= i < |docs| ensures docs[i] in ts && docs[i].kind.LarkDoc? { assert docs[i] in docs; }
    forall i | 0 <= i < |others| ensures others[i] in ts && !others[i].kind.LarkDoc? { assert others[i] in others; }
  }

  /** A run, whole or cut, gets through the first d docs, and then through the first k others. */
  lemma RunParts(c: Context, log: seq<Sent>, r: Attempt) returns (d: nat, k: nat)
    requires Answered(r)
    ensures d <= |Docs(r.targets)| && k <= |Others(r.targets)|
    ensures LogAfter(c, log, r) ==
            OtherLoop(c, DocLoop(c, Loop(log, "", true), Docs(r.targets)[..d], r.docAnswers[..d]),
                      Others(r.targets)[..k], r.otherAnswers[..k]).log
  {
    hide Docs, Others, DocLoop;
    var docs, others := Docs(r.targets), Others(r.targets);
    assert docs[..|docs|] == docs && r.docAnswers[..|docs|] == r.docAnswers;
    assert others[..|others|] == others && r.otherAnswers[..|others|] == r.otherAnswers;
    if r.cut.Whole? || r.cut.n >= |docs| + |others| {
      d, k := |docs|, |others|;
    } else if r.cut.n <= |docs| {
      d, k := r.cut.n, 0;
    } else {
      d, k := |docs|, r.cut.n - |docs|;
    }
  }

  lemma RunBounded(c: Context, log: seq<Sent>, r: Attempt, oid: string, text: string,
                   ks: set<(string, string)>, forms: set<string>) returns (fs: set<string>)
    requires Answered(r) && AllFit(c, r.targets, oid, text, ks)
    requires Bounded(c, Loop(log, "", true), oid, text, ks, forms)
    ensures Bounded(c, Loop(LogAfter(c, log, r), "", true), oid, text, ks, fs)
  {
    var d, k := RunParts(c, log, r);
    PartsFit(c, r.targets, oid, text, ks);
    var docs, others := Docs(r.targets)[..d], Others(r.targets)[..k];
    var l := DocLoop(c, Loop(log, "", true), docs, r.docAnswers[..d]);
    fs := DocsBounded(c, Loop(log, "", true), docs, r.docAnswers[..d], oid, text, ks, forms);
    fs := OthersBounded(c, l, others, r.otherAnswers[..k], oid, text, ks, fs);
    UrlForgotten(c, OtherLoop(c, l, others, r.otherAnswers[..k]), oid, text, ks, fs);
  }

  /** The next run starts without URL. */
  lemma UrlForgotten(c: Context, l: Loop, oid: string, text: string, ks: set<(string, string)>, forms: set<string>)
    requires Bounded(c, l, oid, text, ks, forms)
    ensures Bounded(c, Loop(l.log, "", true), oid, text, ks, forms)
  {
    assert text + "" == text;
  }

  lemma {:induction false} RunsBounded(c: Context, log: seq<Sent>, rs: seq<Attempt>, oid: string, text: string,
                                       ks: set<(string, string)>, forms: set<string>) returns (fs: set<string>)
    requires forall i :: 0 <= i < |rs| ==> Answered(rs[i]) && AllFit(c, rs[i].targets, oid, text, ks)
    requires Bounded(c, Loop(log, "", true), oid, text, ks, forms)
    ensures Bounded(c, Loop(DeliverAll(c, log, rs), "", true), oid, text, ks, fs)
    decreases |rs|
  {
    fs := forms;
    if rs != [] {
      fs := RunBounded(c, log, rs[0], oid, text, ks, fs);
      fs := RunsBounded(c, LogAfter(c, log, rs[0]), rs[1..], oid, text, ks, fs);
    }
  }

  // ── main results ────────────────────────────────────────

  /** Rows with hashes of their own are no more than the hashes. */
  lemma {:induction false} RowsPerHash(log: seq<Sent>, rows: set<nat>, forms: set<string>)
    requires forall i :: i in rows ==> i < |log| && log[i].hash in forms
    requires forall i, j :: i in rows && j in rows && i != j ==> log[i].hash != log[j].hash
    ensures |rows| <= |forms|
    decreases |rows|
  {
    if rows != {} {
      var i :| i in rows;
      RowsPerHash(log, rows - {i}, forms - {log[i].hash});
    }
  }

  /** However often delivery is retried, and cut between two targets: if the docs of all runs have
      their keys in this set, and the DMs to a recipient all carry the same text, the log has at most
      one more ok row of that DM than there are keys. */
  lemma DmsPerDocs(c: Context, rs: seq<Attempt>, oid: string, text: string, ks: set<(string, string)>, rows: set<nat>)
    requires forall i :: 0 <= i < |rs| ==> Answered(rs[i]) && AllFit(c, rs[i].targets, oid, text, ks)
    requires forall i :: i in rows ==> i < |DeliverAll(c, [], rs)| && DmTo(DeliverAll(c, [], rs)[i], oid)
    ensures |rows| <= |ks| + 1
  {
    var log := DeliverAll(c, [], rs);
    forall i, t | 0 <= i < |rs| && t in rs[i].targets ensures Addressed(t) {
      var j :| 0 <= j < |rs[i].targets| && rs[i].targets[j] == t;
      assert Fits(c, rs[i].targets[j], oid, text, ks);
    }
    DeliveredAtMostOnce(c, [], rs);
    assert text + "" == text;
    var forms := RunsBounded(c, [], rs, oid, text, ks, {Digest(c, text)});
    RowsPerHash(log, rows, forms);
    SubsetSize(SentKeys(log, ks), ks);
  }

  /** With one doc target: at most two. */
  lemma AtMostTwoDms(c: Context, rs: seq<Attempt>, oid: string, text: string, doc: Target, i: nat, j: nat, k: nat)
    requires forall n :: 0 <= n < |rs| ==> Answered(rs[n]) && AllFit(c, rs[n].targets, oid, text, {DocKey(c, doc)})
    requires i < j < k < |DeliverAll(c, [], rs)|
    ensures var log := DeliverAll(c, [], rs); !(DmTo(log[i], oid) && DmTo(log[j], oid) && DmTo(log[k], oid))
  {
    var log := DeliverAll(c, [], rs);
    if DmTo(log[i], oid) && DmTo(log[j], oid) && DmTo(log[k], oid) {
      DmsPerDocs(c, rs, oid, text, {DocKey(c, doc)}, {i, j, k});
    }
  }

  // ── the bound is reached ────────────────────────────────

  const PLAIN := Context((s: string) => s, "")
  const DM := Target(LarkDm, "m", "", [])

  function Name(i: nat): (s: string)
    ensures |s| == i + 1 && s[0] == 'x'
  {
    seq(i + 1, _ => 'x')
  }

  function Doc(i: nat): Target { Target(LarkDoc, "o", "", [Name(i)]) }

  function DocList(n: nat): (ds: seq<Target>)
    ensures |ds| == n && forall j :: 0 <= j < n ==> ds[j] == Doc(j)
  {
    seq(n, (j: nat) => Doc(j))
  }

  function DocHash(i: nat): string { Digest(PLAIN, "doc:" + Name(i)) }

  /** The i-th of n docs is delivered now, those before it were delivered before, and those after it
      are refused; if i is n, all were delivered before. */
  function Try(n: nat, i: nat): Attempt {
    Attempt(DocList(n) + [DM], Answers(n, i), [Delivered("")], Whole)
  }

  function Answers(n: nat, i: nat): (r: seq<Answer>)
    ensures |r| == n && forall j :: 0 <= j < n ==> r[j] == if j == i then Delivered(Name(i)) else Refused
  {
    seq(n, j => if j == i then Delivered(Name(i)) else Refused)
  }

  function Tries(n: nat, k: nat): seq<Attempt> {
    if k == 0 then [] else Tries(n, k - 1) + [Try(n, k - 1)]
  }

  lemma {:induction false} DocsThenDm(ts: seq<Target>)
    requires forall i :: 0 <= i < |ts| ==> ts[i].kind.LarkDoc?
    ensures Docs(ts + [DM]) == ts && Others(ts + [DM]) == [DM]
  {
    if ts == [] {
      assert [DM][1..] == [] && ts + [DM] == [DM];
    } else {
      assert (ts + [DM])[0] == ts[0] && (ts + [DM])[1..] == ts[1..] + [DM];
      DocsThenDm(ts[1..]);
    }
  }

  lemma TryParts(n: nat, i: nat)
    ensures Docs(Try(n, i).targets) == DocList(n) && Others(Try(n, i).targets) == [DM]
    ensures Answered(Try(n, i))
  {
    DocsThenDm(DocList(n));
  }

  /** The first i docs have ok rows, and no other. */
  ghost predicate FirstSent(log: seq<Sent>, i: nat) {
    forall j: nat :: AlreadySent(log, "o", DocHash(j)) <==> j < i
  }

  /** No DM has gone out without URL, or with the URL of a later doc. */
  ghost predicate DmsLeft(log: seq<Sent>, i: nat) {
    && !AlreadySent(log, "m", Digest(PLAIN, ""))
    && forall j: nat :: j >= i ==> !AlreadySent(log, "m", Digest(PLAIN, Name(j)))
  }

  lemma HashOf(j: nat, k: nat)
    ensures DocHash(j) == DocHash(k) <==> j == k
    ensures BodyHash(PLAIN, Doc(j), "") == DocHash(j)
  {
    assert Join([Name(j)]) == Name(j);
    if j != k {
      assert |DocHash(j)| != |DocHash(k)|;
    }
  }

  lemma AddedRow(log: seq<Sent>, row: Sent, to: string, hash: string)
    ensures AlreadySent(log + [row], to, hash) <==>
            AlreadySent(log, to, hash) || (row.ok && row.to == to && row.hash == hash)
  {
    if AlreadySent(log, to, hash) {
      SentStays(log, log + [row], to, hash);
    }
    if row.ok && row.to == to && row.hash == hash {
      assert (log + [row])[|log|] == row;
    }
  }

  /** A doc adds at most its own row. */
  lemma DocStep(log: seq<Sent>, i: nat, j: nat, docUrl: string, a: Answer)
    requires FirstSent(log, i) && (a.Delivered? ==> j == i)
    ensures var after := OneLog(PLAIN, log, Doc(j), docUrl, a);
            && FirstSent(after, if a.Delivered? then i + 1 else i)
            && (forall h :: AlreadySent(after, "m", h) <==> AlreadySent(log, "m", h))
    ensures OneUrl(PLAIN, log, Doc(j), docUrl, a) == if a.Delivered? then a.url else ""
  {
    HashOf(j, j);
    if !Hit(PLAIN, log, Doc(j), docUrl) {
      var row := RowFor(PLAIN, Doc(j), docUrl, a.Delivered?);
      forall k: nat ensures AlreadySent(log + [row], "o", DocHash(k)) <==>
                            AlreadySent(log, "o", DocHash(k)) || (a.Delivered? && k == j) {
        AddedRow(log, row, "o", DocHash(k));
        HashOf(j, k);
      }
      forall h ensures AlreadySent(log + [row], "m", h) <==> AlreadySent(log, "m", h) {
        AddedRow(log, row, "m", h);
      }
    }
  }

  lemma {:induction false} DocWalk(n: nat, i: nat, j: nat, l: Loop)
    requires j <= n && i <= n && FirstSent(l.log, if j <= i then i else i + 1)
    requires l.docUrl == if j <= i then "" else Name(i)
    ensures var r := DocLoop(PLAIN, l, DocList(n)[j..], Answers(n, i)[j..]);
            && l.log <= r.log && FirstSent(r.log, if i < n then i + 1 else i)
            && r.docUrl == (if i < n then Name(i) else "")
            && (forall h :: AlreadySent(r.log, "m", h) <==> AlreadySent(l.log, "m", h))
    decreases n - j
  {
    var ds, ans := DocList(n), Answers(n, i);
    hide FirstSent, OneLog, OneUrl, OneOk, AlreadySent;
    if j < n {
      DocStep(l.log, if j <= i then i else i + 1, j, l.docUrl, ans[j]);
      OneLogged(PLAIN, l.log, Doc(j), l.docUrl, ans[j]);
      assert ds[j..][0] == Doc(j) && ds[j..][1..] == ds[j + 1..];
      assert ans[j..][0] == ans[j] && ans[j..][1..] == ans[j + 1..];
      DocWalk(n, i, j + 1, AfterOne(PLAIN, l, Doc(j), ans[j]));
    }
  }

  /** The rows of DMs to the recipient, as many as runs so far. */
  ghost predicate DmRows(log: seq<Sent>, rows: set<nat>) {
    forall i :: i in rows ==> i < |log| && DmTo(log[i], "m")
  }

  /** One run adds a DM, with the URL of the doc delivered, or in the end without. */
  lemma OneTry(n: nat, i: nat, log: seq<Sent>, rows: set<nat>) returns (rows': set<nat>)
    requires i <= n && FirstSent(log, i) && DmsLeft(log, i) && DmRows(log, rows)
    ensures Answered(Try(n, i))
    ensures var after := LogAfter(PLAIN, log, Try(n, i));
            && (i < n ==> FirstSent(after, i + 1) && DmsLeft(after, i + 1))
            && DmRows(after, rows') && |rows'| == |rows| + 1
  {
    TryParts(n, i);
    var l0 := Loop(log, "", true);
    var l := DocLoop(PLAIN, l0, DocList(n), Answers(n, i));
    assert DocList(n)[0..] == DocList(n) && Answers(n, i)[0..] == Answers(n, i);
    DocWalk(n, i, 0, l0);
    OtherLoopOne(PLAIN, l, DM, Delivered(""));
    var after := DmStep(n, i, log, l);
    rows' := rows + {|l.log|};
    RowsStay(log, after, rows, |l.log|);
  }

  lemma OtherLoopOne(c: Context, l: Loop, t: Target, a: Answer)
    ensures OtherLoop(c, l, [t], [a]).log == OneLog(c, l.log, t, l.docUrl, a)
  {
    assert [t][1..] == [] && [a][1..] == [];
  }

  lemma DmStep(n: nat, i: nat, log: seq<Sent>, l: Loop) returns (after: seq<Sent>)
    requires i <= n && DmsLeft(log, i) && log <= l.log && FirstSent(l.log, if i < n then i + 1 else i)
    requires l.docUrl == if i < n then Name(i) else ""
    requires forall h :: AlreadySent(l.log, "m", h) <==> AlreadySent(log, "m", h)
    ensures after == OneLog(PLAIN, l.log, DM, l.docUrl, Delivered(""))
    ensures log <= l.log < after && DmTo(after[|l.log|], "m")
    ensures i < n ==> FirstSent(after, i + 1) && DmsLeft(after, i + 1)
  {
    var text := TextFor(PLAIN, DM) + l.docUrl;
    assert text == l.docUrl;
    var row := RowFor(PLAIN, DM, l.docUrl, true);
    after := OneLog(PLAIN, l.log, DM, l.docUrl, Delivered(""));
    assert !AlreadySent(l.log, "m", Digest(PLAIN, l.docUrl));
    assert after == l.log + [row];
    if i < n {
      forall j: nat ensures AlreadySent(after, "o", DocHash(j)) <==> AlreadySent(l.log, "o", DocHash(j)) {
        AddedRow(l.log, row, "o", DocHash(j));
      }
      forall s | s != Name(i)
        ensures AlreadySent(after, "m", Digest(PLAIN, s)) <==> AlreadySent(log, "m", Digest(PLAIN, s))
      {
        AddedRow(l.log, row, "m", Digest(PLAIN, s));
        assert Digest(PLAIN, s)[7..] == s && Digest(PLAIN, Name(i))[7..] == Name(i);
      }
      assert forall j: nat :: j > i ==> |Name(j)| != |Name(i)|;
    }
  }

  lemma RowsStay(log: seq<Sent>, after: seq<Sent>, rows: set<nat>, k: nat)
    requires DmRows(log, rows) && log <= after && |log| <= k < |after| && DmTo(after[k], "m")
    ensures DmRows(after, rows + {k}) && |rows + {k}| == |rows| + 1
  {
    forall i | i in rows ensures DmTo(after[i], "m") {
      assert after[i] == log[i];
    }
    assert k !in rows;
  }

  lemma {:induction false} DeliverSnoc(c: Context, log: seq<Sent>, rs: seq<Attempt>, r: Attempt)
    requires Answered(r) && forall i :: 0 <= i < |rs| ==> Answered(rs[i])
    ensures DeliverAll(c, log, rs + [r]) == LogAfter(c, DeliverAll(c, log, rs), r)
    decreases |rs|
  {
    if rs == [] {
      assert rs + [r] == [r] && [r][1..] == [];
    } else {
      assert (rs + [r])[0] == rs[0] && (rs + [r])[1..] == rs[1..] + [r];
      DeliverSnoc(c, LogAfter(c, log, rs[0]), rs[1..], r);
    }
  }

  lemma {:induction false} TriesSend(n: nat, k: nat) returns (rows: set<nat>)
    requires k <= n + 1
    ensures |Tries(n, k)| == k
    ensures forall i :: 0 <= i < k ==> Tries(n, k)[i] == Try(n, i) && Answered(Tries(n, k)[i])
    ensures var log := DeliverAll(PLAIN, [], Tries(n, k));
            && (k <= n ==> FirstSent(log, k) && DmsLeft(log, k)) && DmRows(log, rows) && |rows| == k
    decreases k
  {
    rows := {};
    if k > 0 {
      rows := TriesSend(n, k - 1);
      var log := DeliverAll(PLAIN, [], Tries(n, k - 1));
      TryParts(n, k - 1);
      DeliverSnoc(PLAIN, [], Tries(n, k - 1), Try(n, k - 1));
      rows := OneTry(n, k - 1, log, rows);
    }
  }

  ghost function DocKeys(n: nat): set<(string, string)> {
    if n == 0 then {} else DocKeys(n - 1) + {DocKey(PLAIN, Doc(n - 1))}
  }

  lemma TryFits(n: nat, i: nat)
    ensures AllFit(PLAIN, Try(n, i).targets, "m", "", DocKeys(n))
  {
    KeysCount(n);
    forall k | 0 <= k < |Try(n, i).targets|
      ensures Fits(PLAIN, Try(n, i).targets[k], "m", "", DocKeys(n))
    {
      assert Try(n, i).targets[k] == if k < n then Doc(k) else DM;
    }
  }

  /** For every number of docs there are runs that reach the bound: they deliver one doc after the
      other, and each of them, and the one after, sends the DM again. */
  lemma BoundReached(n: nat) returns (rows: set<nat>)
    ensures var rs, ks := Tries(n, n + 1), DocKeys(n);
            && (forall i :: 0 <= i < |rs| ==> Answered(rs[i]) && AllFit(PLAIN, rs[i].targets, "m", "", ks))
            && (forall i :: i in rows ==> i < |DeliverAll(PLAIN, [], rs)| && DmTo(DeliverAll(PLAIN, [], rs)[i], "m"))
            && |rows| == n + 1 && |ks| <= n
  {
    rows := TriesSend(n, n + 1);
    forall i | 0 <= i <= n ensures AllFit(PLAIN, Try(n, i).targets, "m", "", DocKeys(n)) {
      TryFits(n, i);
    }
    KeysCount(n);
  }

  lemma {:induction false} KeysCount(n: nat)
    ensures |DocKeys(n)| <= n
    ensures forall j :: 0 <= j < n ==> DocKey(PLAIN, Doc(j)) in DocKeys(n)
  {
    if n > 0 {
      KeysCount(n - 1);
    }
  }
}
