/** review_agent/pipeline/deliver.py: fan-out of one session's summary, with the outbound log that
    is meant to keep retried runs from sending twice. */
module Delivering {
  /** The backends, by the class that decides how a target is hashed. */
  datatype Kind = LarkDm | LarkDoc | LocalPath | SlackDm | Missing

  datatype Target = Target(kind: Kind, openId: string, path: string, payload: seq<string>)

  /** A row of the outbound table for this session. */
  datatype Sent = Sent(to: string, kind: Kind, hash: string, ok: bool)

  /** What a backend does when called; only the doc backend returns a URL. */
  datatype Answer = Delivered(url: string) | Refused | Raised

  datatype Context = Context(hash: string -> string, summary: string)

  /** `text_hash`: a prefix and a digest. */
  function Digest(c: Context, s: string): string { "sha256:" + c.hash(s) }

  function Join(parts: seq<string>): string {
    if parts == [] then "" else if |parts| == 1 then parts[0] else parts[0] + "," + Join(parts[1..])
  }

  function TextFor(c: Context, t: Target): string {
    if "summary" in t.payload then c.summary else ""
  }

  function BodyHash(c: Context, t: Target, docUrl: string): string {
    match t.kind
    case LarkDm => Digest(c, TextFor(c, t) + docUrl)
    case LarkDoc => Digest(c, "doc:" + Join(t.payload))
    case LocalPath => Digest(c, Join(t.payload))
    case _ => ""
  }

  function Recipient(t: Target): string {
    if t.openId != "" then t.openId else if t.path != "" then t.path else "-"
  }

  /** `outbound_already_sent`. */
  predicate AlreadySent(log: seq<Sent>, to: string, hash: string) {
    exists i :: 0 <= i < |log| && log[i].ok && log[i].to == to && log[i].hash == hash
  }

  /** Will `_deliver_one` skip the target? */
  predicate Hit(c: Context, log: seq<Sent>, t: Target, docUrl: string) {
    var h := BodyHash(c, t, docUrl);
    h != "" && t.openId != "" && AlreadySent(log, t.openId, h)
  }

  function RowFor(c: Context, t: Target, docUrl: string, ok: bool): Sent {
    var h := BodyHash(c, t, docUrl);
    Sent(Recipient(t), t.kind, if h != "" then h else "-", ok)
  }

  /** `_deliver_one`: the log, whether the result is ok, and its URL. */
  function OneLog(c: Context, log: seq<Sent>, t: Target, docUrl: string, a: Answer): seq<Sent> {
    if t.kind.Missing? then log + [Sent(if t.openId != "" then t.openId else t.path, Missing, "-", false)]
    else if Hit(c, log, t, docUrl) then log
    else log + [RowFor(c, t, docUrl, a.Delivered?)]
  }

  function OneOk(c: Context, log: seq<Sent>, t: Target, docUrl: string, a: Answer): bool {
    !t.kind.Missing? && (Hit(c, log, t, docUrl) || a.Delivered?)
  }

  function OneUrl(c: Context, log: seq<Sent>, t: Target, docUrl: string, a: Answer): string {
    if !t.kind.Missing? && !Hit(c, log, t, docUrl) && a.Delivered? then a.url else ""
  }

  function Docs(ts: seq<Target>): seq<Target> {
    if ts == [] then [] else (if ts[0].kind.LarkDoc? then [ts[0]] else []) + Docs(ts[1..])
  }

  function Others(ts: seq<Target>): seq<Target> {
    if ts == [] then [] else (if ts[0].kind.LarkDoc? then [] else [ts[0]]) + Others(ts[1..])
  }

  /** Result of a loop over targets: the log, `ctx["doc_url"]`, and whether all were ok. */
  datatype Loop = Loop(log: seq<Sent>, docUrl: string, ok: bool)

  /** The first loop: docs, each of which may set the URL. */
  function DocLoop(c: Context, l: Loop, ts: seq<Target>, answers: seq<Answer>): Loop
    requires |ts| == |answers|
    decreases |ts|
  {
    if ts == [] then l
    else
      var url := OneUrl(c, l.log, ts[0], l.docUrl, answers[0]);
      DocLoop(c, Loop(OneLog(c, l.log, ts[0], l.docUrl, answers[0]),
                      if url != "" then url else l.docUrl,
                      l.ok && OneOk(c, l.log, ts[0], l.docUrl, answers[0])),
              ts[1..], answers[1..])
  }

  /** The second loop: everything else, with the URL fixed. */
  function OtherLoop(c: Context, l: Loop, ts: seq<Target>, answers: seq<Answer>): Loop
    requires |ts| == |answers|
    decreases |ts|
  {
    if ts == [] then l
    else OtherLoop(c, Loop(OneLog(c, l.log, ts[0], l.docUrl, answers[0]), l.docUrl,
                           l.ok && OneOk(c, l.log, ts[0], l.docUrl, answers[0])),
                   ts[1..], answers[1..])
  }

  /** One run: the targets and how the backends answer, docs and others apart; `cut` says after how
      many targets the process dies, if it does. */
  datatype Attempt = Attempt(
    targets: seq<Target>, docAnswers: seq<Answer>, otherAnswers: seq<Answer>, cut: Cut)

  datatype Cut = Whole | After(n: nat)

  predicate Answered(r: Attempt) {
    |r.docAnswers| == |Docs(r.targets)| && |r.otherAnswers| == |Others(r.targets)|
  }

  function Deliver(c: Context, log: seq<Sent>, r: Attempt): Loop
    requires Answered(r)
  {
    OtherLoop(c, DocLoop(c, Loop(log, "", true), Docs(r.targets), r.docAnswers), Others(r.targets), r.otherAnswers)
  }

  /** The log that a run leaves behind, whole or cut. */
  function LogAfter(c: Context, log: seq<Sent>, r: Attempt): seq<Sent>
    requires Answered(r)
  {
    var docs, others := Docs(r.targets), Others(r.targets);
    var l0 := Loop(log, "", true);
    if r.cut.Whole? || r.cut.n >= |docs| + |others| then Deliver(c, log, r).log
    else if r.cut.n <= |docs| then DocLoop(c, l0, docs[..r.cut.n], r.docAnswers[..r.cut.n]).log
    else
      var k := r.cut.n - |docs|;
      OtherLoop(c, DocLoop(c, l0, docs, r.docAnswers), others[..k], r.otherAnswers[..k]).log
  }

  function DeliverAll(c: Context, log: seq<Sent>, rs: seq<Attempt>): seq<Sent>
    requires forall i :: 0 <= i < |rs| ==> Answered(rs[i])
    decreases |rs|
  {
    if rs == [] then log else DeliverAll(c, LogAfter(c, log, rs[0]), rs[1..])
  }

  // ── the imperative run ──────────────────────────────────

  class Delivery {
    const c: Context
    var outbound: seq<Sent>
    var docUrl: string       // ctx["doc_url"], "" when unset
    var closing: bool
    var closed: bool

    constructor (c: Context)
      ensures this.c == c && outbound == [] && !closed
    {
      this.c := c;
      outbound, docUrl, closing, closed := [], "", false, false;
    }

    method DeliverOne(t: Target, a: Answer) returns (ok: bool, url: string)
      modifies this`outbound
      ensures outbound == OneLog(c, old(outbound), t, docUrl, a)
      ensures ok == OneOk(c, old(outbound), t, docUrl, a)
      ensures url == OneUrl(c, old(outbound), t, docUrl, a)
    {
      if t.kind.Missing? {
        outbound := outbound + [Sent(if t.openId != "" then t.openId else t.path, Missing, "-", false)];
        return false, "";
      }
      var bodyHash := BodyHash(c, t, docUrl);
      if bodyHash != "" && t.openId != "" && AlreadySent(outbound, t.openId, bodyHash) {
        return true, "";
      }
      ok, url := a.Delivered?, if a.Delivered? then a.url else "";
      outbound := outbound + [Sent(Recipient(t), t.kind, if bodyHash != "" then bodyHash else "-", ok)];
    }

    method Run(r: Attempt) returns (allOk: bool)
      requires Answered(r)
      modifies this
      ensures outbound == Deliver(c, old(outbound), r).log
      ensures allOk == Deliver(c, old(outbound), r).ok
      ensures closing && closed == (old(closed) || allOk)
    {
      hide OneLog, Hit, Docs, Others;
      closing := true;
      docUrl := "";
      allOk := true;
      var docs, others := Docs(r.targets), Others(r.targets);
      ghost var l0 := Loop(outbound, "", true);
      for i := 0 to |docs|
        invariant closed == old(closed) && closing
        invariant DocLoop(c, Loop(outbound, docUrl, allOk), docs[i..], r.docAnswers[i..]) ==
                    DocLoop(c, l0, docs, r.docAnswers)
      {
        assert docs[i..][1..] == docs[i + 1..] && r.docAnswers[i..][1..] == r.docAnswers[i + 1..];
        var ok, url := DeliverOne(docs[i], r.docAnswers[i]);
        if ok && url != "" {
          docUrl := url;
        }
        allOk := allOk && ok;
      }
      ghost var l1 := Loop(outbound, docUrl, allOk);
      assert l1 == DocLoop(c, l0, docs, r.docAnswers);
      for i := 0 to |others|
        invariant closed == old(closed) && closing
        invariant OtherLoop(c, Loop(outbound, docUrl, allOk), others[i..], r.otherAnswers[i..]) ==
                    OtherLoop(c, l1, others, r.otherAnswers)
      {
        assert others[i..][1..] == others[i + 1..] && r.otherAnswers[i..][1..] == r.otherAnswers[i + 1..];
        var ok, _ := DeliverOne(others[i], r.otherAnswers[i]);
        allOk := allOk && ok;
      }
      if allOk {
        closed := true;
      }
    }
  }

  // ── at most one ok row ──────────────────────────────────

  predicate Lark(k: Kind) { k.LarkDm? || k.LarkDoc? }

  predicate Addressed(t: Target) { Lark(t.kind) ==> t.openId != "" }

  /** No recipient got the same content twice from the Lark backends. */
  ghost predicate SentOnce(log: seq<Sent>) {
    forall i, j :: 0 <= i < j < |log| && Lark(log[i].kind) && Lark(log[j].kind) && log[i].ok && log[j].ok ==>
      !(log[i].to == log[j].to && log[i].hash == log[j].hash)
  }

  lemma OneKeepsSentOnce(c: Context, log: seq<Sent>, t: Target, docUrl: string, a: Answer)
    requires SentOnce(log) && Addressed(t)
    ensures SentOnce(OneLog(c, log, t, docUrl, a))
  {
  }

  lemma {:induction false} DocLoopSentOnce(c: Context, l: Loop, ts: seq<Target>, answers: seq<Answer>)
    requires |ts| == |answers| && SentOnce(l.log) && forall i :: 0 <= i < |ts| ==> Addressed(ts[i])
    ensures SentOnce(DocLoop(c, l, ts, answers).log)
    decreases |ts|
  {
    if ts != [] {
      OneKeepsSentOnce(c, l.log, ts[0], l.docUrl, answers[0]);
      var url := OneUrl(c, l.log, ts[0], l.docUrl, answers[0]);
      DocLoopSentOnce(c, Loop(OneLog(c, l.log, ts[0], l.docUrl, answers[0]), if url != "" then url else l.docUrl,
                              l.ok && OneOk(c, l.log, ts[0], l.docUrl, answers[0])), ts[1..], answers[1..]);
    }
  }

  lemma {:induction false} OtherLoopSentOnce(c: Context, l: Loop, ts: seq<Target>, answers: seq<Answer>)
    requires |ts| == |answers| && SentOnce(l.log) && forall i :: 0 <= i < |ts| ==> Addressed(ts[i])
    ensures SentOnce(OtherLoop(c, l, ts, answers).log)
    decreases |ts|
  {
    if ts != [] {
      OneKeepsSentOnce(c, l.log, ts[0], l.docUrl, answers[0]);
      OtherLoopSentOnce(c, Loop(OneLog(c, l.log, ts[0], l.docUrl, answers[0]), l.docUrl,
                                l.ok && OneOk(c, l.log, ts[0], l.docUrl, answers[0])), ts[1..], answers[1..]);
    }
  }

  lemma {:induction false} PartsAreTargets(ts: seq<Target>)
    ensures forall t :: t in Docs(ts) <==> t in ts && t.kind.LarkDoc?
    ensures forall t :: t in Others(ts) <==> t in ts && !t.kind.LarkDoc?
  {
    if ts != [] {
      PartsAreTargets(ts[1..]);
      assert ts == [ts[0]] + ts[1..];
    }
  }

  lemma RunKeepsSentOnce(c: Context, log: seq<Sent>, r: Attempt)
    requires SentOnce(log) && Answered(r) && forall t :: t in r.targets ==> Addressed(t)
    ensures SentOnce(LogAfter(c, log, r))
  {
    PartsAreTargets(r.targets);
    var docs, others := Docs(r.targets), Others(r.targets);
    assert forall i :: 0 <= i < |docs| ==> docs[i] in docs;
    assert forall i :: 0 <= i < |others| ==> others[i] in others;
    var l0 := Loop(log, "", true);
    var l := DocLoop(c, l0, docs, r.docAnswers);
    DocLoopSentOnce(c, l0, docs, r.docAnswers);
    OtherLoopSentOnce(c, l, others, r.otherAnswers);
    if r.cut.After? && r.cut.n <= |docs| {
      DocLoopSentOnce(c, l0, docs[..r.cut.n], r.docAnswers[..r.cut.n]);
    } else if r.cut.After? && r.cut.n < |docs| + |others| {
      var k := r.cut.n - |docs|;
      OtherLoopSentOnce(c, l, others[..k], r.otherAnswers[..k]);
    }
  }

  /** Over any sequence of retried runs, whole or cut between two targets, whose Lark targets name a
      recipient, the log has at most one ok row for each recipient and content. */
  lemma {:induction false} DeliveredAtMostOnce(c: Context, log: seq<Sent>, rs: seq<Attempt>)
    requires SentOnce(log)
    requires forall i :: 0 <= i < |rs| ==> Answered(rs[i]) && forall t :: t in rs[i].targets ==> Addressed(t)
    ensures SentOnce(DeliverAll(c, log, rs))
    decreases |rs|
  {
    if rs != [] {
      RunKeepsSentOnce(c, log, rs[0]);
      DeliveredAtMostOnce(c, LogAfter(c, log, rs[0]), rs[1..]);
    }
  }

  /** Exactly the targets with a hash and an open id are protected: any other is sent again. */
  lemma ResentIffUnprotected(c: Context, log: seq<Sent>, t: Target, docUrl: string, a: Answer, b: Answer)
    requires !t.kind.Missing? && a.Delivered?
    ensures var once := OneLog(c, log, t, docUrl, a);
            (OneLog(c, once, t, docUrl, b) != once) <==> BodyHash(c, t, docUrl) == "" || t.openId == ""
  {
    var once := OneLog(c, log, t, docUrl, a);
    if !Hit(c, log, t, docUrl) {
      assert once[|log|] == RowFor(c, t, docUrl, true);
    }
  }
}
