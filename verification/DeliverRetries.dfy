/** What closing a session promises about the outbound log, and what a retried delivery sends again. */
module DeliverRetries {
  import opened Delivering

  // ── closing ─────────────────────────────────────────────

  /** Some ok row stands for the target. */
  ghost predicate Logged(c: Context, log: seq<Sent>, t: Target, docUrl: string) {
    AlreadySent(log, Recipient(t), RowFor(c, t, docUrl, true).hash)
  }

  lemma SentStays(log: seq<Sent>, more: seq<Sent>, to: string, hash: string)
    requires AlreadySent(log, to, hash) && log <= more
    ensures AlreadySent(more, to, hash)
  {
    var i :| 0 <= i < |log| && log[i].ok && log[i].to == to && log[i].hash == hash;
    assert more[i] == log[i];
  }

  lemma OneLogged(c: Context, log: seq<Sent>, t: Target, docUrl: string, a: Answer)
    ensures log <= OneLog(c, log, t, docUrl, a)
    ensures OneOk(c, log, t, docUrl, a) ==> Logged(c, OneLog(c, log, t, docUrl, a), t, docUrl)
  {
    if OneOk(c, log, t, docUrl, a) && !Hit(c, log, t, docUrl) {
      assert OneLog(c, log, t, docUrl, a)[|log|] == RowFor(c, t, docUrl, true);
    }
  }

  lemma {:induction false} DocLoopLogged(c: Context, l: Loop, ts: seq<Target>, answers: seq<Answer>, u: string)
    requires |ts| == |answers| && forall i :: 0 <= i < |ts| ==> ts[i].kind.LarkDoc?
    ensures var r := DocLoop(c, l, ts, answers);
            && l.log <= r.log && (r.ok ==> l.ok)
            && (r.ok ==> forall i :: 0 <= i < |ts| ==> Logged(c, r.log, ts[i], u))
    decreases |ts|
  {
    if ts != [] {
      var t, a := ts[0], answers[0];
      var url := OneUrl(c, l.log, t, l.docUrl, a);
      var l1 := Loop(OneLog(c, l.log, t, l.docUrl, a), if url != "" then url else l.docUrl,
                     l.ok && OneOk(c, l.log, t, l.docUrl, a));
      OneLogged(c, l.log, t, l.docUrl, a);
      DocLoopLogged(c, l1, ts[1..], answers[1..], u);
      var r := DocLoop(c, l, ts, answers);
      if r.ok {
        SentStays(l1.log, r.log, Recipient(t), RowFor(c, t, l.docUrl, true).hash);
        forall i | 0 <= i < |ts| ensures Logged(c, r.log, ts[i], u) {
          if i > 0 {
            assert Logged(c, r.log, ts[1..][i - 1], u);
          }
        }
      }
    }
  }

  lemma {:induction false} OtherLoopLogged(c: Context, l: Loop, ts: seq<Target>, answers: seq<Answer>)
    requires |ts| == |answers|
    ensures var r := OtherLoop(c, l, ts, answers);
            && l.log <= r.log && (r.ok ==> l.ok) && r.docUrl == l.docUrl
            && (r.ok ==> forall i :: 0 <= i < |ts| ==> Logged(c, r.log, ts[i], l.docUrl))
    decreases |ts|
  {
    if ts != [] {
      var t, a := ts[0], answers[0];
      var l1 := Loop(OneLog(c, l.log, t, l.docUrl, a), l.docUrl, l.ok && OneOk(c, l.log, t, l.docUrl, a));
      OneLogged(c, l.log, t, l.docUrl, a);
      OtherLoopLogged(c, l1, ts[1..], answers[1..]);
      var r := OtherLoop(c, l, ts, answers);
      if r.ok {
        SentStays(l1.log, r.log, Recipient(t), RowFor(c, t, l.docUrl, true).hash);
        forall i | 0 <= i < |ts| ensures Logged(c, r.log, ts[i], l.docUrl) {
          if i > 0 {
            assert Logged(c, r.log, ts[1..][i - 1], l.docUrl);
          }
        }
      }
    }
  }

  /** A run that closes the session leaves an ok row for every one of its targets. */
  lemma ClosedMeansDelivered(c: Context, log: seq<Sent>, r: Attempt, t: Target)
    requires Answered(r) && Deliver(c, log, r).ok && t in r.targets
    ensures Logged(c, Deliver(c, log, r).log, t, Deliver(c, log, r).docUrl)
  {
    PartsAreTargets(r.targets);
    var docs, others := Docs(r.targets), Others(r.targets);
    var l0 := Loop(log, "", true);
    var l1 := DocLoop(c, l0, docs, r.docAnswers);
    forall i | 0 <= i < |docs| ensures docs[i].kind.LarkDoc? {
      assert docs[i] in docs;
    }
    DocLoopLogged(c, l0, docs, r.docAnswers, l1.docUrl);
    OtherLoopLogged(c, l1, others, r.otherAnswers);
    if t in docs {
      var i :| 0 <= i < |docs| && docs[i] == t;
      SentStays(l1.log, Deliver(c, log, r).log, Recipient(t), RowFor(c, t, l1.docUrl, true).hash);
    } else {
      assert t in others;
      var i :| 0 <= i < |others| && others[i] == t;
    }
  }

  // ── retries ─────────────────────────────────────────────

  /** A row with this recipient and hash that was not there before. */
  ghost predicate NewRow(log: seq<Sent>, after: seq<Sent>, to: string, hash: string) {
    exists i :: |log| <= i < |after| && after[i].to == to && after[i].hash == hash
  }

  /** Every DM names a recipient, and nothing else with a hash is logged under this one: neither a doc
      nor a local path. Slack messages and targets without backend have no hash. */
  predicate OnlyDmsTo(ts: seq<Target>, oid: string) {
    forall v :: v in ts ==> KeepsApart(v, oid)
  }

  predicate KeepsApart(t: Target, oid: string) {
    match t.kind
    case LarkDm => t.openId != ""
    case LarkDoc => Recipient(t) != oid
    case LocalPath => Recipient(t) != oid
    case _ => true
  }

  lemma OneNoNewRow(c: Context, log: seq<Sent>, t: Target, docUrl: string, a: Answer, oid: string, hash: string)
    requires AlreadySent(log, oid, hash) && oid != "" && hash != "-" && KeepsApart(t, oid)
    ensures !NewRow(log, OneLog(c, log, t, docUrl, a), oid, hash)
  {
  }

  lemma {:induction false} NoNewRow(c: Context, l: Loop, ts: seq<Target>, answers: seq<Answer>, oid: string,
      hash: string)
    requires |ts| == |answers| && AlreadySent(l.log, oid, hash) && oid != "" && hash != "-" && OnlyDmsTo(ts, oid)
    ensures !NewRow(l.log, OtherLoop(c, l, ts, answers).log, oid, hash)
    decreases |ts|
  {
    if ts != [] {
      var t, a := ts[0], answers[0];
      var l1 := Loop(OneLog(c, l.log, t, l.docUrl, a), l.docUrl, l.ok && OneOk(c, l.log, t, l.docUrl, a));
      OneNoNewRow(c, l.log, t, l.docUrl, a, oid, hash);
      OneLogged(c, l.log, t, l.docUrl, a);
      SentStays(l.log, l1.log, oid, hash);
      NoNewRow(c, l1, ts[1..], answers[1..], oid, hash);
      OtherLoopLogged(c, l1, ts[1..], answers[1..]);
      LaterRows(l.log, l1.log, OtherLoop(c, l1, ts[1..], answers[1..]).log, oid, hash);
    }
  }

  lemma LaterRows(log: seq<Sent>, mid: seq<Sent>, after: seq<Sent>, to: string, hash: string)
    requires log <= mid <= after
    ensures NewRow(log, after, to, hash) <==> NewRow(log, mid, to, hash) || NewRow(mid, after, to, hash)
  {
    if NewRow(log, mid, to, hash) {
      var i :| |log| <= i < |mid| && mid[i].to == to && mid[i].hash == hash;
      assert after[i] == mid[i];
    }
    if NewRow(log, after, to, hash) && !NewRow(mid, after, to, hash) {
      var i :| |log| <= i < |after| && after[i].to == to && after[i].hash == hash;
      assert i < |mid| && mid[i] == after[i];
    }
  }

  /** A DM that was not sent is logged as new, by its own attempt or by an equal one before it. */
  lemma {:induction false} SentAnew(c: Context, l: Loop, ts: seq<Target>, answers: seq<Answer>, i: nat)
    requires |ts| == |answers| && i < |ts| && ts[i].kind.LarkDm? && ts[i].openId != ""
    requires !AlreadySent(l.log, ts[i].openId, BodyHash(c, ts[i], l.docUrl))
    ensures NewRow(l.log, OtherLoop(c, l, ts, answers).log, ts[i].openId, BodyHash(c, ts[i], l.docUrl))
    decreases |ts|
  {
    var t, a := ts[0], answers[0];
    var oid, hash := ts[i].openId, BodyHash(c, ts[i], l.docUrl);
    var l1 := Loop(OneLog(c, l.log, t, l.docUrl, a), l.docUrl, l.ok && OneOk(c, l.log, t, l.docUrl, a));
    var r := OtherLoop(c, l1, ts[1..], answers[1..]);
    OneLogged(c, l.log, t, l.docUrl, a);
    OtherLoopLogged(c, l1, ts[1..], answers[1..]);
    LaterRows(l.log, l1.log, r.log, oid, hash);
    if i == 0 {
      assert l1.log[|l.log|] == RowFor(c, t, l.docUrl, a.Delivered?);
    } else if AlreadySent(l1.log, oid, hash) {
      NowSent(l.log, l1.log, oid, hash);
    } else {
      SentAnew(c, l1, ts[1..], answers[1..], i - 1);
    }
  }

  lemma NowSent(log: seq<Sent>, after: seq<Sent>, to: string, hash: string)
    requires log <= after && AlreadySent(after, to, hash) && !AlreadySent(log, to, hash)
    ensures NewRow(log, after, to, hash)
  {
    assert forall j :: 0 <= j < |log| ==> log[j] == after[j];
    var i :| 0 <= i < |after| && after[i].ok && after[i].to == to && after[i].hash == hash;
    assert i >= |log|;
  }

  /** After the docs of a run, a DM gets a new row exactly when there is no ok row with its recipient
      and the hash of its text, with the URL that the docs have left. */
  lemma DmSentIff(c: Context, log: seq<Sent>, r: Attempt, t: Target)
    requires Answered(r) && t in r.targets && t.kind.LarkDm? && t.openId != "" && OnlyDmsTo(Others(r.targets), t.openId)
    ensures var l1 := DocLoop(c, Loop(log, "", true), Docs(r.targets), r.docAnswers);
            var hash := Digest(c, TextFor(c, t) + l1.docUrl);
            NewRow(l1.log, Deliver(c, log, r).log, t.openId, hash) <==> !AlreadySent(l1.log, t.openId, hash)
  {
    var l1 := DocLoop(c, Loop(log, "", true), Docs(r.targets), r.docAnswers);
    var hash := Digest(c, TextFor(c, t) + l1.docUrl);
    var others := Others(r.targets);
    PartsAreTargets(r.targets);
    if AlreadySent(l1.log, t.openId, hash) {
      NoNewRow(c, l1, others, r.otherAnswers, t.openId, hash);
    } else {
      assert t in others;
      var i :| 0 <= i < |others| && others[i] == t;
      SentAnew(c, l1, others, r.otherAnswers, i);
    }
  }

  lemma {:induction false} DocsSkipped(c: Context, l: Loop, ts: seq<Target>, answers: seq<Answer>)
    requires |ts| == |answers| && forall i :: 0 <= i < |ts| ==> ts[i].kind.LarkDoc? && Hit(c, l.log, ts[i], "")
    ensures DocLoop(c, l, ts, answers) == l
    decreases |ts|
  {
    if ts != [] {
      assert Hit(c, l.log, ts[0], l.docUrl);
      DocsSkipped(c, l, ts[1..], answers[1..]);
    }
  }

  /** A retry skips the docs that are in the log and gets no URL from them. So it sends a DM again,
      without URL, exactly when no ok row has that plain text: whenever it went out with a URL. */
  lemma RetriedDmIff(c: Context, log: seq<Sent>, r: Attempt, t: Target)
    requires Answered(r) && t in r.targets && t.kind.LarkDm? && t.openId != "" && OnlyDmsTo(Others(r.targets), t.openId)
    requires forall d :: d in Docs(r.targets) ==> Hit(c, log, d, "")
    ensures var plain := Digest(c, TextFor(c, t));
            NewRow(log, Deliver(c, log, r).log, t.openId, plain) <==> !AlreadySent(log, t.openId, plain)
  {
    var docs := Docs(r.targets);
    PartsAreTargets(r.targets);
    forall i | 0 <= i < |docs| ensures docs[i].kind.LarkDoc? && Hit(c, log, docs[i], "") {
      assert docs[i] in docs;
    }
    DocsSkipped(c, Loop(log, "", true), docs, r.docAnswers);
    DmSentIff(c, log, r, t);
    assert TextFor(c, t) + "" == TextFor(c, t);
  }

  ghost predicate Injective(c: Context) {
    forall s, t :: c.hash(s) == c.hash(t) ==> s == t
  }

  lemma DigestInjective(c: Context, s: string, t: string)
    requires Injective(c)
    ensures Digest(c, s) == Digest(c, t) <==> s == t
  {
    assert Digest(c, s)[7..] == c.hash(s) && Digest(c, t)[7..] == c.hash(t);
  }

  /** The doc and one DM are delivered, the other DM fails. */
  function FirstTry(doc: Target, dm: Target, other: Target, u: string): Attempt {
    Attempt([doc, dm, other], [Delivered(u)], [Delivered(""), Raised], Whole)
  }

  /** The same targets again, and this time everything works. */
  function SecondTry(doc: Target, dm: Target, other: Target, u: string): Attempt {
    Attempt([doc, dm, other], [Delivered(u)], [Delivered(""), Delivered("")], Whole)
  }

  ghost predicate Trio(c: Context, doc: Target, dm: Target, other: Target, u: string) {
    && doc.kind.LarkDoc? && dm.kind.LarkDm? && other.kind.LarkDm?
    && doc.openId != "" && dm.openId != "" && other.openId != "" && other.openId != dm.openId
    && TextFor(c, dm) != "doc:" + Join(doc.payload) && TextFor(c, dm) + u != "doc:" + Join(doc.payload)
    && Answered(FirstTry(doc, dm, other, u)) && Answered(SecondTry(doc, dm, other, u))
  }

  lemma FirstLog(c: Context, doc: Target, dm: Target, other: Target, u: string)
    requires Injective(c) && Trio(c, doc, dm, other, u)
    ensures var log := Deliver(c, [], FirstTry(doc, dm, other, u)).log;
            && 2 <= |log| <= 3
            && log[0] == RowFor(c, doc, "", true) && log[1] == RowFor(c, dm, u, true)
            && (|log| == 3 ==> !log[2].ok && log[2].to == other.openId)
  {
    ThreeTargets(doc, dm, other);
    DigestInjective(c, TextFor(c, dm) + u, "doc:" + Join(doc.payload));
    var docRow := RowFor(c, doc, "", true);
    var l1 := Loop([docRow], u, true);
    DocLoopOne(c, Loop([], "", true), doc, Delivered(u));
    assert OneLog(c, [], doc, "", Delivered(u)) == [docRow];
    assert DocLoop(c, Loop([], "", true), [doc], [Delivered(u)]) == l1;
    OtherLoopTwo(c, l1, dm, other, Delivered(""), Raised);
    assert !Hit(c, [docRow], dm, u);
    assert OneLog(c, [docRow], dm, u, Delivered("")) == [docRow, RowFor(c, dm, u, true)];
  }

  lemma SecondLog(c: Context, log: seq<Sent>, doc: Target, dm: Target, other: Target, u: string)
    requires Trio(c, doc, dm, other, u)
    requires Hit(c, log, doc, "")
    ensures Deliver(c, log, SecondTry(doc, dm, other, u)).log ==
            OneLog(c, OneLog(c, log, dm, "", Delivered("")), other, "", Delivered(""))
  {
    ThreeTargets(doc, dm, other);
    DocLoopOne(c, Loop(log, "", true), doc, Delivered(u));
    OtherLoopTwo(c, Loop(log, "", true), dm, other, Delivered(""), Delivered(""));
  }

  /** A retry recognises the doc as sent and gets no URL from it, so the DM that did arrive is
      sent again exactly when the doc has a URL - as delivered docs do. */
  lemma RetryResendsIff(c: Context, doc: Target, dm: Target, other: Target, u: string)
    requires Injective(c) && Trio(c, doc, dm, other, u)
    ensures var log := Deliver(c, [], FirstTry(doc, dm, other, u)).log;
            var again := Deliver(c, log, SecondTry(doc, dm, other, u)).log;
            var row := RowFor(c, dm, "", true);
            && row in again && (row !in log <==> u != "")
            && (NewRow(log, again, dm.openId, Digest(c, TextFor(c, dm))) <==> u != "")
  {
    var log := Deliver(c, [], FirstTry(doc, dm, other, u)).log;
    TrioRetried(c, doc, dm, other, u);
    FirstLog(c, doc, dm, other, u);
    assert Hit(c, log, doc, "");
    SecondLog(c, log, doc, dm, other, u);
    var row, log2 := RowFor(c, dm, "", true), OneLog(c, log, dm, "", Delivered(""));
    PlainRowIff(c, log, doc, dm, other, u);
    RowArrives(c, log, dm, row);
    OneLogged(c, log2, other, "", Delivered(""));
    PrefixMember(log2, OneLog(c, log2, other, "", Delivered("")), row);
  }

  lemma HashesApart(c: Context, doc: Target, dm: Target, other: Target, u: string)
    requires Injective(c) && Trio(c, doc, dm, other, u)
    ensures RowFor(c, doc, "", true).hash != RowFor(c, dm, "", true).hash
    ensures RowFor(c, dm, u, true).hash == RowFor(c, dm, "", true).hash <==> u == ""
  {
    var text := TextFor(c, dm);
    DigestInjective(c, text, "doc:" + Join(doc.payload));
    DigestInjective(c, text + u, text);
    assert |text + u| == |text| + |u|;
    assert text + "" == text;
  }

  lemma SecondRowIff(log: seq<Sent>, row: Sent)
    requires 2 <= |log| <= 3 && row.ok && log[0].hash != row.hash && (log[1].hash == row.hash ==> log[1] == row)
    requires |log| == 3 ==> !log[2].ok
    ensures row in log <==> log[1].hash == row.hash
    ensures AlreadySent(log, row.to, row.hash) ==> row in log
  {
  }

  /** The general statement, for these three. */
  lemma TrioRetried(c: Context, doc: Target, dm: Target, other: Target, u: string)
    requires Injective(c) && Trio(c, doc, dm, other, u)
    ensures var log := Deliver(c, [], FirstTry(doc, dm, other, u)).log;
            NewRow(log, Deliver(c, log, SecondTry(doc, dm, other, u)).log, dm.openId, Digest(c, TextFor(c, dm)))
            <==> u != ""
  {
    var log := Deliver(c, [], FirstTry(doc, dm, other, u)).log;
    var row := RowFor(c, dm, "", true);
    FirstLog(c, doc, dm, other, u);
    ThreeTargets(doc, dm, other);
    PlainRowIff(c, log, doc, dm, other, u);
    assert Hit(c, log, doc, "");
    assert TextFor(c, dm) + "" == TextFor(c, dm);
    assert row in log ==> AlreadySent(log, row.to, row.hash);
    RetriedDmIff(c, log, SecondTry(doc, dm, other, u), dm);
  }

  /** After the first try the DM without URL is in the log only if the doc has none. */
  lemma PlainRowIff(c: Context, log: seq<Sent>, doc: Target, dm: Target, other: Target, u: string)
    requires Injective(c) && Trio(c, doc, dm, other, u)
    requires 2 <= |log| <= 3 && log[0] == RowFor(c, doc, "", true) && log[1] == RowFor(c, dm, u, true)
    requires |log| == 3 ==> !log[2].ok
    ensures RowFor(c, dm, "", true) in log <==> u == ""
    ensures Hit(c, log, dm, "") ==> RowFor(c, dm, "", true) in log
  {
    HashesApart(c, doc, dm, other, u);
    SecondRowIff(log, RowFor(c, dm, "", true));
  }

  lemma RowArrives(c: Context, log: seq<Sent>, dm: Target, row: Sent)
    requires row == RowFor(c, dm, "", true) && !dm.kind.Missing?
    requires Hit(c, log, dm, "") ==> row in log
    ensures row in OneLog(c, log, dm, "", Delivered(""))
  {
  }

  lemma PrefixMember(s: seq<Sent>, t: seq<Sent>, x: Sent)
    requires s <= t && x in s
    ensures x in t
  {
    var i :| 0 <= i < |s| && s[i] == x;
    assert t[i] == x;
  }

  lemma ThreeTargets(doc: Target, dm: Target, other: Target)
    requires doc.kind.LarkDoc? && dm.kind.LarkDm? && other.kind.LarkDm?
    ensures Docs([doc, dm, other]) == [doc] && Others([doc, dm, other]) == [dm, other]
  {
    assert [doc, dm, other][1..] == [dm, other] && [dm, other][1..] == [other];
    assert Docs([other]) == [] && Docs([dm, other]) == [];
    assert Others([other]) == [other] && Others([dm, other]) == [dm, other];
  }

  lemma DocLoopOne(c: Context, l: Loop, t: Target, a: Answer)
    ensures var url := OneUrl(c, l.log, t, l.docUrl, a);
            DocLoop(c, l, [t], [a]) ==
            Loop(OneLog(c, l.log, t, l.docUrl, a), if url != "" then url else l.docUrl,
                 l.ok && OneOk(c, l.log, t, l.docUrl, a))
  {
    assert [t][1..] == [] && [a][1..] == [];
  }

  lemma OtherLoopTwo(c: Context, l: Loop, t: Target, v: Target, a: Answer, b: Answer)
    ensures OtherLoop(c, l, [t, v], [a, b]).log == OneLog(c, OneLog(c, l.log, t, l.docUrl, a), v, l.docUrl, b)
  {
    var l1 := Loop(OneLog(c, l.log, t, l.docUrl, a), l.docUrl, l.ok && OneOk(c, l.log, t, l.docUrl, a));
    var l2 := Loop(OneLog(c, l1.log, v, l.docUrl, b), l.docUrl, l1.ok && OneOk(c, l1.log, v, l.docUrl, b));
    assert [t, v][1..] == [v] && [a, b][1..] == [b];
    assert [v][1..] == [] && [b][1..] == [];
    assert OtherLoop(c, l, [t, v], [a, b]) == OtherLoop(c, l1, [v], [b]);
    assert OtherLoop(c, l1, [v], [b]) == OtherLoop(c, l2, [], []);
  }
}
