/** Exactly when a delivery run closes its session. */
module DeliverClosing {
  import opened Delivering
  import opened DeliverRetries

  /** The log has an ok row with the recipient of the target and the hash of its content. */
  ghost predicate Recorded(c: Context, log: seq<Sent>, t: Target, docUrl: string) {
    && t.openId != "" && BodyHash(c, t, docUrl) != ""
    && exists i :: 0 <= i < |log| && log[i].ok && log[i].to == t.openId && log[i].hash == BodyHash(c, t, docUrl)
  }

  /** The target has a backend, and at its turn it was recorded before or is delivered now. */
  ghost predicate Served(c: Context, log: seq<Sent>, t: Target, docUrl: string, a: Answer) {
    !t.kind.Missing? && (Recorded(c, log, t, docUrl) || a.Delivered?)
  }

  ghost predicate DocsServed(c: Context, l: Loop, ts: seq<Target>, answers: seq<Answer>)
    requires |ts| == |answers|
  {
    forall i :: 0 <= i < |ts| ==>
      var turn := DocLoop(c, l, ts[..i], answers[..i]); Served(c, turn.log, ts[i], turn.docUrl, answers[i])
  }

  ghost predicate OthersServed(c: Context, l: Loop, ts: seq<Target>, answers: seq<Answer>)
    requires |ts| == |answers|
  {
    forall i :: 0 <= i < |ts| ==>
      var turn := OtherLoop(c, l, ts[..i], answers[..i]); Served(c, turn.log, ts[i], turn.docUrl, answers[i])
  }

  lemma ServedIsOk(c: Context, log: seq<Sent>, t: Target, docUrl: string, a: Answer)
    ensures OneOk(c, log, t, docUrl, a) <==> Served(c, log, t, docUrl, a)
  {
  }

  lemma {:induction false} DocSnoc(c: Context, l: Loop, ts: seq<Target>, answers: seq<Answer>, n: nat)
    requires |ts| == |answers| && n < |ts|
    ensures var turn := DocLoop(c, l, ts[..n], answers[..n]);
            var r := DocLoop(c, l, ts[..n + 1], answers[..n + 1]);
            && r.ok == (turn.ok && OneOk(c, turn.log, ts[n], turn.docUrl, answers[n]))
            && r.log == OneLog(c, turn.log, ts[n], turn.docUrl, answers[n])
    decreases n
  {
    if n == 0 {
      assert ts[..1][1..] == [] && answers[..1][1..] == [];
    } else {
      var t, a := ts[0], answers[0];
      var url := OneUrl(c, l.log, t, l.docUrl, a);
      var l1 := Loop(OneLog(c, l.log, t, l.docUrl, a), if url != "" then url else l.docUrl,
                     l.ok && OneOk(c, l.log, t, l.docUrl, a));
      DocSnoc(c, l1, ts[1..], answers[1..], n - 1);
      assert ts[..n][1..] == ts[1..][..n - 1] && answers[..n][1..] == answers[1..][..n - 1];
      assert ts[..n + 1][1..] == ts[1..][..n] && answers[..n + 1][1..] == answers[1..][..n];
    }
  }

  lemma {:induction false} OtherSnoc(c: Context, l: Loop, ts: seq<Target>, answers: seq<Answer>, n: nat)
    requires |ts| == |answers| && n < |ts|
    ensures var turn := OtherLoop(c, l, ts[..n], answers[..n]);
            var r := OtherLoop(c, l, ts[..n + 1], answers[..n + 1]);
            && r.ok == (turn.ok && OneOk(c, turn.log, ts[n], turn.docUrl, answers[n]))
            && r.log == OneLog(c, turn.log, ts[n], turn.docUrl, answers[n])
    decreases n
  {
    if n == 0 {
      assert ts[..1][1..] == [] && answers[..1][1..] == [];
    } else {
      var t, a := ts[0], answers[0];
      var l1 := Loop(OneLog(c, l.log, t, l.docUrl, a), l.docUrl, l.ok && OneOk(c, l.log, t, l.docUrl, a));
      OtherSnoc(c, l1, ts[1..], answers[1..], n - 1);
      assert ts[..n][1..] == ts[1..][..n - 1] && answers[..n][1..] == answers[1..][..n - 1];
      assert ts[..n + 1][1..] == ts[1..][..n] && answers[..n + 1][1..] == answers[1..][..n];
    }
  }

  lemma NoTargets(c: Context, l: Loop)
    ensures DocLoop(c, l, [], []) == OtherLoop(c, l, [], []) == l
  {
  }

  lemma {:induction false} DocsOkIff(c: Context, l: Loop, ts: seq<Target>, answers: seq<Answer>)
    requires |ts| == |answers|
    ensures DocLoop(c, l, ts, answers).ok <==> l.ok && DocsServed(c, l, ts, answers)
    decreases |ts|
  {
    hide OneOk, Served, DocLoop;
    if ts == [] {
      NoTargets(c, l);
    } else {
      var n := |ts| - 1;
      DocsOkIff(c, l, ts[..n], answers[..n]);
      DocSnoc(c, l, ts, answers, n);
      var turn := DocLoop(c, l, ts[..n], answers[..n]);
      ServedIsOk(c, turn.log, ts[n], turn.docUrl, answers[n]);
      assert ts[..n + 1] == ts && answers[..n + 1] == answers;
      forall i | 0 <= i < n ensures ts[..n][..i] == ts[..i] && answers[..n][..i] == answers[..i] {
      }
    }
  }

  lemma {:induction false} OthersOkIff(c: Context, l: Loop, ts: seq<Target>, answers: seq<Answer>)
    requires |ts| == |answers|
    ensures OtherLoop(c, l, ts, answers).ok <==> l.ok && OthersServed(c, l, ts, answers)
    decreases |ts|
  {
    hide OneOk, Served, OtherLoop;
    if ts == [] {
      NoTargets(c, l);
    } else {
      var n := |ts| - 1;
      OthersOkIff(c, l, ts[..n], answers[..n]);
      OtherSnoc(c, l, ts, answers, n);
      var turn := OtherLoop(c, l, ts[..n], answers[..n]);
      ServedIsOk(c, turn.log, ts[n], turn.docUrl, answers[n]);
      assert ts[..n + 1] == ts && answers[..n + 1] == answers;
      forall i | 0 <= i < n ensures ts[..n][..i] == ts[..i] && answers[..n][..i] == answers[..i] {
      }
    }
  }

  /** A whole run closes the session exactly when every target has a backend and at its turn either was
      recorded before or is delivered. */
  lemma ClosesIff(c: Context, log: seq<Sent>, r: Attempt)
    requires Answered(r)
    ensures var l0 := Loop(log, "", true);
            var l1 := DocLoop(c, l0, Docs(r.targets), r.docAnswers);
            Deliver(c, log, r).ok <==>
              && DocsServed(c, l0, Docs(r.targets), r.docAnswers)
              && OthersServed(c, l1, Others(r.targets), r.otherAnswers)
  {
    var l0 := Loop(log, "", true);
    DocsOkIff(c, l0, Docs(r.targets), r.docAnswers);
    OthersOkIff(c, DocLoop(c, l0, Docs(r.targets), r.docAnswers), Others(r.targets), r.otherAnswers);
  }

  lemma {:induction false} OthersHit(c: Context, l: Loop, ts: seq<Target>, answers: seq<Answer>)
    requires |ts| == |answers| && forall i :: 0 <= i < |ts| ==> !ts[i].kind.Missing?
    requires forall i :: 0 <= i < |ts| ==> Recorded(c, l.log, ts[i], l.docUrl) || answers[i].Delivered?
    ensures OtherLoop(c, l, ts, answers).ok <==> l.ok
    decreases |ts|
  {
    if ts != [] {
      var t, a := ts[0], answers[0];
      var l1 := Loop(OneLog(c, l.log, t, l.docUrl, a), l.docUrl, l.ok && OneOk(c, l.log, t, l.docUrl, a));
      OneLogged(c, l.log, t, l.docUrl, a);
      ServedIsOk(c, l.log, t, l.docUrl, a);
      forall i | 0 <= i < |ts| - 1 ensures Recorded(c, l1.log, ts[1..][i], l.docUrl) || answers[1..][i].Delivered? {
        if Recorded(c, l.log, ts[i + 1], l.docUrl) {
          SentStays(l.log, l1.log, ts[i + 1].openId, BodyHash(c, ts[i + 1], l.docUrl));
        }
      }
      OthersHit(c, l1, ts[1..], answers[1..]);
    }
  }

  /** So a retry closes the session if each of its docs is recorded, and each other target either is
      recorded, in the form without URL, or is delivered now. */
  lemma RetryCloses(c: Context, log: seq<Sent>, r: Attempt)
    requires Answered(r) && forall t :: t in r.targets ==> !t.kind.Missing?
    requires forall t :: t in Docs(r.targets) ==> Recorded(c, log, t, "")
    requires forall i :: 0 <= i < |Others(r.targets)| ==>
               Recorded(c, log, Others(r.targets)[i], "") || r.otherAnswers[i].Delivered?
    ensures Deliver(c, log, r).ok
  {
    var docs, others, l0 := Docs(r.targets), Others(r.targets), Loop(log, "", true);
    PartsAreTargets(r.targets);
    forall i | 0 <= i < |docs| ensures docs[i].kind.LarkDoc? && Hit(c, log, docs[i], "") {
      assert docs[i] in docs && Recorded(c, log, docs[i], "");
    }
    forall i | 0 <= i < |others| ensures !others[i].kind.Missing? {
      assert others[i] in others;
    }
    DocsSkipped(c, l0, docs, r.docAnswers);
    OthersHit(c, l0, others, r.otherAnswers);
  }

  // ── a run that is cut ───────────────────────────────────

  /** A run cut after n targets has dealt with the first n of them, docs first: with each of them one more
      target's row, and in the end it is the whole run. */
  lemma CutGrows(c: Context, log: seq<Sent>, r: Attempt, n: nat)
    requires Answered(r)
    ensures LogAfter(c, log, r.(cut := After(0))) == log
    ensures var total := |Docs(r.targets)| + |Others(r.targets)|;
            && (n >= total ==> LogAfter(c, log, r.(cut := After(n))) == Deliver(c, log, r).log)
            && (n < total ==>
                  var t := (Docs(r.targets) + Others(r.targets))[n];
                  var a := (r.docAnswers + r.otherAnswers)[n];
                  exists docUrl ::
                    LogAfter(c, log, r.(cut := After(n + 1))) ==
                    OneLog(c, LogAfter(c, log, r.(cut := After(n))), t, docUrl, a))
  {
    hide OneLog, OneOk, Docs, Others;
    var docs, others, l0 := Docs(r.targets), Others(r.targets), Loop(log, "", true);
    var l1 := DocLoop(c, l0, docs, r.docAnswers);
    assert docs[..0] == [] && r.docAnswers[..0] == [] && others[..0] == [] && r.otherAnswers[..0] == [];
    assert docs[..|docs|] == docs && r.docAnswers[..|docs|] == r.docAnswers;
    assert others[..|others|] == others && r.otherAnswers[..|others|] == r.otherAnswers;
    if n < |docs| {
      DocSnoc(c, l0, docs, r.docAnswers, n);
      var turn := DocLoop(c, l0, docs[..n], r.docAnswers[..n]);
      assert (docs + others)[n] == docs[n] && (r.docAnswers + r.otherAnswers)[n] == r.docAnswers[n];
      assert LogAfter(c, log, r.(cut := After(n))) == turn.log;
      assert LogAfter(c, log, r.(cut := After(n + 1))) == OneLog(c, turn.log, docs[n], turn.docUrl, r.docAnswers[n]);
    } else if n < |docs| + |others| {
      var k := n - |docs|;
      OtherSnoc(c, l1, others, r.otherAnswers, k);
      var turn := OtherLoop(c, l1, others[..k], r.otherAnswers[..k]);
      assert (docs + others)[n] == others[k] && (r.docAnswers + r.otherAnswers)[n] == r.otherAnswers[k];
      assert LogAfter(c, log, r.(cut := After(n))) == turn.log;
      assert LogAfter(c, log, r.(cut := After(n + 1))) ==
             OneLog(c, turn.log, others[k], turn.docUrl, r.otherAnswers[k]);
    }
  }
}
