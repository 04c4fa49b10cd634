/** What one target adds to the outbound log, and what it is recognised by on a retry. */
module DeliverRows {
  import opened Delivering

  /** A payload of several parts is joined by commas. */
  lemma {:induction false} JoinMeans(parts: seq<string>, part: string)
    ensures Join([]) == "" && Join([part]) == part
    ensures parts != [] ==> Join(parts + [part]) == Join(parts) + "," + part
  {
    if parts != [] {
      assert (parts + [part])[0] == parts[0] && (parts + [part])[1..] == parts[1..] + [part];
      if |parts| > 1 {
        JoinMeans(parts[1..], part);
        assert parts[0] + "," + (Join(parts[1..]) + "," + part) == (parts[0] + "," + Join(parts[1..])) + "," + part;
      }
    }
  }

  /** An ok row for this recipient and content. */
  ghost predicate RowOf(c: Context, log: seq<Sent>, to: string, content: string) {
    exists i :: 0 <= i < |log| && log[i].ok && log[i].to == to && log[i].hash == "sha256:" + c.hash(content)
  }

  /** When a target with a backend is skipped: a DM if its recipient has an ok row for the summary, if it
      carries that, with the URL at hand; a doc or a local copy if there is one for its payload; a Slack
      message never; and none without an open id. */
  lemma SkippedIff(c: Context, log: seq<Sent>, t: Target, docUrl: string, a: Answer)
    requires !t.kind.Missing?
    ensures OneLog(c, log, t, docUrl, a) == log <==>
              && t.openId != ""
              && match t.kind
                 case LarkDm => RowOf(c, log, t.openId, (if "summary" in t.payload then c.summary else "") + docUrl)
                 case LarkDoc => RowOf(c, log, t.openId, "doc:" + Join(t.payload))
                 case LocalPath => RowOf(c, log, t.openId, Join(t.payload))
                 case _ => false
  {
    var h := BodyHash(c, t, docUrl);
    assert OneLog(c, log, t, docUrl, a) == log <==> Hit(c, log, t, docUrl);
    assert !t.kind.SlackDm? ==> h != "";
  }

  /** Otherwise it adds one row: for its open id, or else its path, or else a dash; ok exactly if it was
      delivered. A target without backend adds a row that is not ok. A skipped one adds none. */
  lemma RowAdded(c: Context, log: seq<Sent>, t: Target, docUrl: string, a: Answer)
    ensures var after := OneLog(c, log, t, docUrl, a);
            && after[..|log|] == log && |log| <= |after| <= |log| + 1
            && (t.kind.Missing? ==> |after| == |log| + 1)
            && (|after| > |log| ==>
                  var row := after[|log|];
                  && row.kind == t.kind && (row.ok <==> a.Delivered? && !t.kind.Missing?)
                  && (t.openId != "" ==> row.to == t.openId)
                  && (t.openId == "" && t.path != "" ==> row.to == t.path)
                  && (t.openId == "" && t.path == "" ==> row.to == if t.kind.Missing? then "" else "-")
                  && (row.hash == "-" <==> t.kind.Missing? || t.kind.SlackDm?))
  {
    assert forall s :: Digest(c, s)[0] == 's';
  }
}
