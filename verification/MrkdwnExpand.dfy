/** The whole conversion: passes, then the restore loop, against the full expansion. */
module MrkdwnExpand {
  import opened Mrkdwn
  import opened MrkdwnKeys
  import opened MrkdwnRestore
  import opened MrkdwnCuts
  import PyStrings

  // ── what the result should be ───────────────────────────

  /** Every placeholder with a key below n replaced by its fragment, whose own placeholders,
      having smaller keys, are expanded likewise. */
  function Expand(ts: Text, fs: seq<Text>, n: nat): Text
    requires n <= |fs|
    decreases n, |ts|
  {
    if ts == [] then []
    else (if ts[0].Ph? && ts[0].k < n then Expand(fs[ts[0].k], fs, ts[0].k) else [ts[0]]) + Expand(ts[1..], fs, n)
  }

  // ── what the restore loop does ──────────────────────────

  /** The loop, on tokens. */
  function RestoreTokens(ts: Text, fs: seq<Text>, n: nat): Text
    requires n <= |fs|
    decreases n
  {
    if n == 0 then ts else RestoreTokens(Subst(ts, n - 1, fs[n - 1]), fs, n - 1)
  }

  /** No false key at any turn of the loop: something that can be read off the text and the
      fragments before the loop starts. */
  predicate AllClean(ts: Text, fs: seq<Text>, n: nat)
    requires n <= |fs|
    decreases n
  {
    n == 0 || (Clean(ts, n - 1) && AllClean(Subst(ts, n - 1, fs[n - 1]), fs, n - 1))
  }

  /** At every turn of the loop the string is the one the tokens stand for. */
  ghost predicate InStep(s: string, ts: Text, fs: seq<Text>, n: nat)
    requires n <= |fs|
    decreases n
  {
    && s == Flat(ts)
    && (n > 0 ==> InStep(Replace(s, Key(n - 1), Flat(fs[n - 1])), Subst(ts, n - 1, fs[n - 1]), fs, n - 1))
  }

  ghost predicate AllNulFree(fs: seq<Text>) {
    forall i :: 0 <= i < |fs| ==> NulFree(fs[i])
  }

  ghost predicate Below(ts: Text, n: nat) {
    forall k :: k in Keys(ts) ==> k < n
  }

  lemma BelowParts(ts: Text, n: nat)
    requires ts != []
    ensures Below(ts, n) <==> (ts[0].Ph? ==> ts[0].k < n) && Below(ts[1..], n)
  {
    var head: multiset<nat> := if ts[0].Ph? then multiset{ts[0].k} else multiset{};
    assert forall k :: k in Keys(ts) <==> k in head || k in Keys(ts[1..]);
    assert ts[0].Ph? ==> ts[0].k in Keys(ts);
  }

  lemma BelowCat(s: Text, t: Text, n: nat)
    requires Below(s, n) && Below(t, n)
    ensures Below(s + t, n)
  {
    KeysCat(s, t);
  }

  lemma {:induction false} SubstNulFree(ts: Text, k: nat, f: Text)
    requires NulFree(ts) && NulFree(f)
    ensures NulFree(Subst(ts, k, f))
  {
    if ts != [] {
      SubstNulFree(ts[1..], k, f);
    }
  }

  lemma HeadNotLater(f: Text, k: nat)
    requires Below(f, k)
    ensures StartsApart(f, k)
  {
    if f != [] {
      BelowParts(f, k);
    }
  }

  /** The loop replaces placeholders by their fragments at every turn, and nothing else,
      exactly when it never meets a false key. */
  lemma {:induction false} InStepIff(ts: Text, fs: seq<Text>, n: nat)
    requires n <= |fs| && NulFree(ts) && AllNulFree(fs) && Backward(fs)
    ensures InStep(Flat(ts), ts, fs, n) <==> AllClean(ts, fs, n)
    decreases n
  {
    if n > 0 {
      var k, f := n - 1, fs[n - 1];
      HeadNotLater(f, k);
      ReplaceIff(ts, k, f);
      SubstNulFree(ts, k, f);
      InStepIff(Subst(ts, k, f), fs, k);
    }
  }

  lemma {:induction false} InStepEnd(s: string, ts: Text, fs: seq<Text>, n: nat)
    requires n <= |fs| && InStep(s, ts, fs, n)
    ensures RestoreFrom(s, FlatAll(fs), n) == Flat(RestoreTokens(ts, fs, n))
    decreases n
  {
    if n > 0 {
      InStepEnd(Replace(s, Key(n - 1), Flat(fs[n - 1])), Subst(ts, n - 1, fs[n - 1]), fs, n - 1);
    }
  }

  // ── the loop on tokens computes the expansion ───────────

  lemma {:induction false} ExpandCat(s: Text, t: Text, fs: seq<Text>, n: nat)
    requires n <= |fs|
    ensures Expand(s + t, fs, n) == Expand(s, fs, n) + Expand(t, fs, n)
    decreases |s|
  {
    if s == [] {
      assert s + t == t;
    } else {
      assert (s + t)[0] == s[0] && (s + t)[1..] == s[1..] + t;
      ExpandCat(s[1..], t, fs, n);
      var first := if s[0].Ph? && s[0].k < n then Expand(fs[s[0].k], fs, s[0].k) else [s[0]];
      assert first + (Expand(s[1..], fs, n) + Expand(t, fs, n)) == (first + Expand(s[1..], fs, n)) + Expand(t, fs, n);
    }
  }

  /** What one token expands to. */
  function ExpandToken(tok: Tok, fs: seq<Text>, n: nat): Text
    requires n <= |fs|
  {
    if tok.Ph? && tok.k < n then Expand(fs[tok.k], fs, tok.k) else [tok]
  }

  lemma ExpandStep(tok: Tok, ts: Text, fs: seq<Text>, n: nat)
    requires n <= |fs|
    ensures Expand([tok] + ts, fs, n) == ExpandToken(tok, fs, n) + Expand(ts, fs, n)
  {
    assert ([tok] + ts)[1..] == ts;
  }

  lemma LatestHere(rest: Text, tail: Text, fs: seq<Text>, n: nat)
    requires 0 < n <= |fs| && Expand(rest, fs, n - 1) == Expand(tail, fs, n)
    ensures Expand(fs[n - 1] + rest, fs, n - 1) == Expand([Ph(n - 1)] + tail, fs, n)
  {
    hide Expand;
    ExpandCat(fs[n - 1], rest, fs, n - 1);
    ExpandStep(Ph(n - 1), tail, fs, n);
  }

  lemma LatestElsewhere(tok: Tok, rest: Text, tail: Text, fs: seq<Text>, n: nat)
    requires 0 < n <= |fs| && Expand(rest, fs, n - 1) == Expand(tail, fs, n)
    requires tok != Ph(n - 1) && (tok.Ph? ==> tok.k < n)
    ensures Expand([tok] + rest, fs, n - 1) == Expand([tok] + tail, fs, n)
  {
    ExpandStep(tok, rest, fs, n - 1);
    ExpandStep(tok, tail, fs, n);
  }

  /** The latest key can be expanded first. */
  lemma {:induction false} ExpandLatestFirst(ts: Text, fs: seq<Text>, n: nat)
    requires 0 < n <= |fs| && Below(ts, n)
    ensures Expand(Subst(ts, n - 1, fs[n - 1]), fs, n - 1) == Expand(ts, fs, n)
    decreases |ts|
  {
    if ts != [] {
      var tail := ts[1..];
      var rest := Subst(tail, n - 1, fs[n - 1]);
      assert ts == [ts[0]] + tail;
      BelowParts(ts, n);
      ExpandLatestFirst(tail, fs, n);
      SubstStep(ts[0], tail, n - 1, fs[n - 1]);
      if ts[0] == Ph(n - 1) {
        LatestHere(rest, tail, fs, n);
      } else {
        LatestElsewhere(ts[0], rest, tail, fs, n);
      }
    }
  }

  lemma {:induction false} SubstBelow(ts: Text, fs: seq<Text>, n: nat)
    requires 0 < n <= |fs| && Below(ts, n) && Below(fs[n - 1], n - 1)
    ensures Below(Subst(ts, n - 1, fs[n - 1]), n - 1)
    decreases |ts|
  {
    if ts != [] {
      var k, tail := n - 1, ts[1..];
      BelowParts(ts, n);
      SubstBelow(tail, fs, n);
      var rest := Subst(tail, k, fs[k]);
      if ts[0] == Ph(k) {
        BelowCat(fs[k], rest, k);
      } else {
        assert ([ts[0]] + rest)[1..] == rest;
        BelowParts([ts[0]] + rest, k);
      }
    }
  }

  lemma {:induction false} NoKeysNoChange(ts: Text, fs: seq<Text>)
    requires Below(ts, 0)
    ensures Expand(ts, fs, 0) == ts
    decreases |ts|
  {
    if ts != [] {
      BelowParts(ts, 0);
      NoKeysNoChange(ts[1..], fs);
    }
  }

  lemma {:induction false} TokensExpanded(ts: Text, fs: seq<Text>, n: nat)
    requires n <= |fs| && Below(ts, n) && Backward(fs)
    ensures RestoreTokens(ts, fs, n) == Expand(ts, fs, n)
    ensures Below(RestoreTokens(ts, fs, n), 0)
    decreases n
  {
    if n == 0 {
      NoKeysNoChange(ts, fs);
    } else {
      SubstBelow(ts, fs, n);
      ExpandLatestFirst(ts, fs, n);
      TokensExpanded(Subst(ts, n - 1, fs[n - 1]), fs, n - 1);
    }
  }

  lemma {:induction false} TokensNulFree(ts: Text, fs: seq<Text>, n: nat)
    requires n <= |fs| && NulFree(ts) && AllNulFree(fs)
    ensures NulFree(RestoreTokens(ts, fs, n))
    decreases n
  {
    if n > 0 {
      SubstNulFree(ts, n - 1, fs[n - 1]);
      TokensNulFree(Subst(ts, n - 1, fs[n - 1]), fs, n - 1);
    }
  }

  lemma {:induction false} NoKeyLeft(ts: Text)
    requires NulFree(ts) && Below(ts, 0)
    ensures NUL !in Flat(ts)
  {
    if ts != [] {
      BelowParts(ts, 0);
      NoKeyLeft(ts[1..]);
    }
  }

  // ── the passes ──────────────────────────────────────────

  /** Passes that each cut the text left by the one before. */
  ghost predicate Matches(ts: Text, n: nat, passes: seq<seq<Piece>>)
    decreases |passes|
  {
    passes == [] ||
    (ts == Before(passes[0]) && Matches(After(passes[0], n), n + |Stored(passes[0])|, passes[1..]))
  }

  /** Text and fragments after all passes. */
  ghost function Convert(ts: Text, fs: seq<Text>, passes: seq<seq<Piece>>): (Text, seq<Text>)
    decreases |passes|
  {
    if passes == [] then (ts, fs)
    else Convert(After(passes[0], |fs|), fs + Stored(passes[0]), passes[1..])
  }

  /** All characters of the text and the fragments differ from c. */
  ghost predicate Lacks(ts: Text, c: char) {
    forall i :: 0 <= i < |ts| ==> ts[i] != Ch(c)
  }

  ghost predicate AllLack(fs: seq<Text>, c: char) {
    forall i :: 0 <= i < |fs| ==> Lacks(fs[i], c)
  }

  lemma LacksParts(s: Text, t: Text, c: char)
    ensures Lacks(s + t, c) <==> Lacks(s, c) && Lacks(t, c)
  {
    if Lacks(s + t, c) {
      assert forall i :: 0 <= i < |s| ==> s[i] == (s + t)[i];
      assert forall i :: 0 <= i < |t| ==> t[i] == (s + t)[|s| + i];
    }
  }

  lemma {:induction false} RStripLacks(ts: Text, cs: set<char>, c: char)
    requires Lacks(ts, c)
    ensures Lacks(RStrip(ts, cs), c)
  {
    if ts != [] && ts[|ts| - 1].Ch? && ts[|ts| - 1].c in cs {
      RStripLacks(ts[..|ts| - 1], cs, c);
    }
  }

  /** Characters that no pass writes of its own accord. */
  predicate NeverWritten(c: char) {
    c !in "`<|>* ─•._~\n"
  }

  lemma FragmentLacks(m: Match, c: char)
    requires NeverWritten(c) && Lacks(Source(m), c)
    ensures Lacks(Fragment(m), c)
  {
    match m
    case Fence(lang, body) => FenceLacks(lang, body, c);
    case Code(body) => WrappedLacks("`", body, "`", c);
    case Link(caption, target) => LinkLacks(caption, target, c);
    case Url(_, _) =>
    case Quote =>
    case Header(hashes, title) => LacksParts(Chars(hashes) + Chars(" "), title, c);
    case Rule(_) =>
    case Bullet(mark, item) => LacksParts([Ch(mark)] + Chars(" "), item, c);
    case Numbered(number, entry) =>
    case Bold(body) => WrappedLacks("**", body, "**", c);
    case Italic(body) => WrappedLacks("*", body, "*", c);
    case Strike(body) => WrappedLacks("~~", body, "~~", c);
  }

  lemma FenceLacks(lang: string, body: Text, c: char)
    requires NeverWritten(c) && Lacks(Source(Fence(lang, body)), c)
    ensures Lacks(Fragment(Fence(lang, body)), c)
  {
    LacksParts(Chars("```") + Chars(lang) + body, Chars("```"), c);
    LacksParts(Chars("```") + Chars(lang), body, c);
    RStripLacks(body, PyStrings.WHITE, c);
  }

  lemma LinkLacks(caption: Text, target: Text, c: char)
    requires NeverWritten(c) && Lacks(Source(Link(caption, target)), c)
    ensures Lacks(Fragment(Link(caption, target)), c)
  {
    LacksParts(Chars("[") + caption + Chars("](") + target, Chars(")"), c);
    LacksParts(Chars("[") + caption + Chars("]("), target, c);
    WrappedLacks("[", caption, "](", c);
  }

  lemma WrappedLacks(a: string, ts: Text, b: string, c: char)
    requires Lacks(Chars(a) + ts + Chars(b), c)
    ensures Lacks(ts, c)
  {
    LacksParts(Chars(a) + ts, Chars(b), c);
    LacksParts(Chars(a), ts, c);
  }

  lemma {:induction false} PassLacks(ps: seq<Piece>, n: nat, c: char)
    requires NeverWritten(c) && Lacks(Before(ps), c)
    ensures Lacks(After(ps, n), c) && AllLack(Stored(ps), c)
    decreases |ps|
  {
    if ps != [] {
      if ps[0].Keep? {
        LacksParts(ps[0].kept, Before(ps[1..]), c);
        PassLacks(ps[1..], n, c);
        LacksParts(ps[0].kept, After(ps[1..], n), c);
        assert Stored(ps) == Stored(ps[1..]);
      } else {
        LacksParts(Source(ps[0].m), Before(ps[1..]), c);
        FragmentLacks(ps[0].m, c);
        PassLacks(ps[1..], n + 1, c);
        LacksParts([Ph(n)], After(ps[1..], n + 1), c);
      }
    }
  }

  lemma AllLackCat(fs: seq<Text>, gs: seq<Text>, c: char)
    requires AllLack(fs, c) && AllLack(gs, c)
    ensures AllLack(fs + gs, c)
  {
  }

  lemma {:induction false} ConvertLacks(ts: Text, fs: seq<Text>, passes: seq<seq<Piece>>, c: char)
    requires NeverWritten(c) && Lacks(ts, c) && AllLack(fs, c) && Matches(ts, |fs|, passes)
    ensures Lacks(Convert(ts, fs, passes).0, c) && AllLack(Convert(ts, fs, passes).1, c)
    decreases |passes|
  {
    hide Lacks, AllLack, NeverWritten, After, Stored;
    if passes != [] {
      OnePassLacks(fs, passes[0], c);
      ConvertLacks(After(passes[0], |fs|), fs + Stored(passes[0]), passes[1..], c);
    }
  }

  lemma OnePassLacks(fs: seq<Text>, ps: seq<Piece>, c: char)
    requires NeverWritten(c) && Lacks(Before(ps), c) && AllLack(fs, c)
    ensures Lacks(After(ps, |fs|), c) && AllLack(fs + Stored(ps), c)
  {
    PassLacks(ps, |fs|, c);
    AllLackCat(fs, Stored(ps), c);
  }

  lemma {:induction false} ConvertKeepsEachOnce(ts: Text, fs: seq<Text>, passes: seq<seq<Piece>>)
    requires EachOnce(ts, fs) && Backward(fs) && Matches(ts, |fs|, passes)
    ensures var (us, gs) := Convert(ts, fs, passes); EachOnce(us, gs) && Backward(gs)
    decreases |passes|
  {
    if passes != [] {
      PassKeepsEachOnce(passes[0], fs);
      ConvertKeepsEachOnce(After(passes[0], |fs|), fs + Stored(passes[0]), passes[1..]);
    }
  }

  // ── every fragment is sealed ────────────────────────────

  lemma {:induction false} StoredSealed(ps: seq<Piece>)
    ensures AllSealed(Stored(ps))
    decreases |ps|
  {
    if ps != [] {
      StoredSealed(ps[1..]);
      if ps[0].Hit? {
        FragmentSealed(ps[0].m);
      }
    }
  }

  lemma {:induction false} ConvertSealed(ts: Text, fs: seq<Text>, passes: seq<seq<Piece>>)
    requires AllSealed(fs)
    ensures AllSealed(Convert(ts, fs, passes).1)
    decreases |passes|
  {
    if passes != [] {
      StoredSealed(passes[0]);
      ConvertSealed(After(passes[0], |fs|), fs + Stored(passes[0]), passes[1..]);
    }
  }

  /** At the first false key the loop leaves the NUL of a key behind, for good. */
  lemma {:induction false} UncleanLeavesNul(ts: Text, fs: seq<Text>, n: nat)
    requires n <= |fs| && NulFree(ts) && AllNulFree(fs) && AllSealed(fs) && !AllClean(ts, fs, n)
    ensures NUL in RestoreFrom(Flat(ts), FlatAll(fs), n)
    decreases n
  {
    var k, f := n - 1, fs[n - 1];
    if Clean(ts, k) {
      ReplaceIff(ts, k, f);
      SubstNulFree(ts, k, f);
      UncleanLeavesNul(Subst(ts, k, f), fs, k);
    } else {
      CutMade(ts, k, f);
      CutStays(Replace(Flat(ts), Key(k), Flat(f)), fs, k);
    }
  }

  lemma {:induction false} CutStays(s: string, fs: seq<Text>, n: nat)
    requires n <= |fs| && CutForm(s) && AllNulFree(fs) && AllSealed(fs)
    ensures NUL in RestoreFrom(s, FlatAll(fs), n)
    decreases n
  {
    if n == 0 {
      CutHasNul(s);
    } else {
      CutKept(s, n - 1, fs[n - 1]);
      CutStays(Replace(s, Key(n - 1), Flat(fs[n - 1])), fs, n - 1);
    }
  }

  // ── main results ────────────────────────────────────────

  /** Text and fragments after all passes over a message without NUL. */
  lemma Converted(input: string, passes: seq<seq<Piece>>)
    requires NUL !in input && Matches(Chars(input), 0, passes)
    ensures var (ts, fs) := Convert(Chars(input), [], passes);
            && EachOnce(ts, fs) && Backward(fs) && Below(ts, |fs|)
            && NulFree(ts) && AllNulFree(fs) && AllSealed(fs)
  {
    StartEachOnce(input);
    ConvertKeepsEachOnce(Chars(input), [], passes);
    ConvertLacks(Chars(input), [], passes, NUL);
    ConvertSealed(Chars(input), [], passes);
    var (ts, fs) := Convert(Chars(input), [], passes);
    forall k | k in Keys(ts) ensures k < |fs| {
      assert (Keys(ts) + KeysAll(fs))[k] >= 1;
    }
  }

  /** Restoring yields the full expansion exactly when it meets no false key; otherwise a NUL is left. */
  lemma RestoredIff(ts: Text, fs: seq<Text>)
    requires Backward(fs) && Below(ts, |fs|) && NulFree(ts) && AllNulFree(fs) && AllSealed(fs)
    ensures var r := RestoreFrom(Flat(ts), FlatAll(fs), |fs|);
            && (r == Flat(Expand(ts, fs, |fs|)) <==> AllClean(ts, fs, |fs|))
            && (NUL !in r <==> AllClean(ts, fs, |fs|))
            && NUL !in Flat(Expand(ts, fs, |fs|))
  {
    var n := |fs|;
    TokensExpanded(ts, fs, n);
    TokensNulFree(ts, fs, n);
    NoKeyLeft(RestoreTokens(ts, fs, n));
    if AllClean(ts, fs, n) {
      InStepIff(ts, fs, n);
      InStepEnd(Flat(ts), ts, fs, n);
    } else {
      UncleanLeavesNul(ts, fs, n);
    }
  }

  /** After all passes every key occurs once, in the text or in a later fragment; and the result is
      the full expansion, with no key left, exactly when the loop meets no false key - and then it
      follows the placeholders turn by turn. */
  lemma PlaceholderRestore(input: string, passes: seq<seq<Piece>>)
    requires NUL !in input && Matches(Chars(input), 0, passes)
    ensures var (ts, fs) := Convert(Chars(input), [], passes);
            var n := |fs|;
            var r := RestoreFrom(Flat(ts), FlatAll(fs), n);
            && EachOnce(ts, fs) && Backward(fs)
            && (InStep(Flat(ts), ts, fs, n) <==> AllClean(ts, fs, n))
            && (r == Flat(Expand(ts, fs, n)) <==> AllClean(ts, fs, n))
            && (NUL !in r <==> AllClean(ts, fs, n))
  {
    Converted(input, passes);
    var (ts, fs) := Convert(Chars(input), [], passes);
    InStepIff(ts, fs, |fs|);
    RestoredIff(ts, fs);
  }

  lemma {:induction false} SubstLacks(ts: Text, k: nat, f: Text, c: char)
    requires Lacks(ts, c) && Lacks(f, c)
    ensures Lacks(Subst(ts, k, f), c)
  {
    if ts != [] {
      SubstLacks(ts[1..], k, f, c);
    }
  }

  lemma NotSpelled(ts: Text, p: string, i: nat)
    requires i < |p| && Lacks(ts, p[i])
    ensures !Spells(ts, p)
  {
    if |ts| > |p| {
      assert ts[..|p|][i] == ts[i];
    }
  }

  lemma {:induction false} CleanWithout(ts: Text, k: nat, i: nat)
    requires i < 2 && Lacks(ts, Tag(k)[i])
    ensures Clean(ts, k)
  {
    if ts != [] {
      CleanWithout(ts[1..], k, i);
      NotSpelled(ts[1..], Tag(k), i);
    }
  }

  lemma {:induction false} AllCleanWithout(ts: Text, fs: seq<Text>, n: nat, i: nat)
    requires n <= |fs| && i < 2 && Lacks(ts, "PH"[i]) && AllLack(fs, "PH"[i])
    ensures AllClean(ts, fs, n)
    decreases n
  {
    if n > 0 {
      CleanWithout(ts, n - 1, i);
      SubstLacks(ts, n - 1, fs[n - 1], "PH"[i]);
      AllCleanWithout(Subst(ts, n - 1, fs[n - 1]), fs, n - 1, i);
    }
  }

  /** A message without a capital P, or without a capital H, is always converted in full. */
  lemma SafeInputs(input: string, passes: seq<seq<Piece>>)
    requires NUL !in input && Matches(Chars(input), 0, passes)
    requires 'P' !in input || 'H' !in input
    ensures var (ts, fs) := Convert(Chars(input), [], passes);
            RestoreFrom(Flat(ts), FlatAll(fs), |fs|) == Flat(Expand(ts, fs, |fs|))
  {
    var i := if 'P' !in input then 0 else 1;
    var c := "PH"[i];
    ConvertLacks(Chars(input), [], passes, c);
    var (ts, fs) := Convert(Chars(input), [], passes);
    AllCleanWithout(ts, fs, |fs|, i);
    PlaceholderRestore(input, passes);
  }

  // ── a message that is garbled ───────────────────────────

  /** The inline-code pass over: `a`PH1`b` */
  const GARBLING := [Hit(Code(Chars("a"))), Keep(Chars("PH1")), Hit(Code(Chars("b")))]

  lemma HitFirst(m: Match, ps: seq<Piece>, n: nat)
    ensures Before([Hit(m)] + ps) == Source(m) + Before(ps)
    ensures After([Hit(m)] + ps, n) == [Ph(n)] + After(ps, n + 1)
    ensures Stored([Hit(m)] + ps) == [Fragment(m)] + Stored(ps)
  {
    assert ([Hit(m)] + ps)[1..] == ps;
  }

  lemma KeepFirst(kept: Text, ps: seq<Piece>, n: nat)
    ensures Before([Keep(kept)] + ps) == kept + Before(ps)
    ensures After([Keep(kept)] + ps, n) == kept + After(ps, n)
    ensures Stored([Keep(kept)] + ps) == Stored(ps)
  {
    assert ([Keep(kept)] + ps)[1..] == ps;
    assert [] + Stored(ps) == Stored(ps);
  }

  lemma GarblingTokens()
    ensures Before(GARBLING) == Chars("`a`PH1`b`")
    ensures After(GARBLING, 0) == [Ph(0)] + (Chars("PH1") + [Ph(1)])
    ensures |Stored(GARBLING)| == 2 && Stored(GARBLING)[1] == Chars("`b`")
  {
    var a, b := Code(Chars("a")), Code(Chars("b"));
    var last: seq<Piece> := [Hit(b)];
    HitFirst(b, [], 1);
    assert [Hit(b)] + [] == last;
    KeepFirst(Chars("PH1"), last, 1);
    HitFirst(a, [Keep(Chars("PH1"))] + last, 0);
    assert GARBLING == [Hit(a)] + ([Keep(Chars("PH1"))] + last);
  }

  lemma SmallTags()
    ensures Tag(0) == "PH0" && Tag(1) == "PH1"
  {
    assert Decimal(0) == "0" && Decimal(1) == "1";
  }

  /** Key 0 is cut short and stays so: its NUL is never removed. */
  lemma CutKeyStays(s: string, fill: string)
    ensures Replace([NUL] + ("PH0`" + s), Key(0), fill) == [NUL] + ("PH0`" + Replace(s, Key(0), fill))
  {
    SmallTags();
    var x := [NUL] + ("PH0`" + s);
    assert x[4] == '`' && Key(0)[4] == NUL;
    AtNul(Tag(0), "PH0`" + s, fill);
    SkipPlain("PH0`", s, Key(0), fill);
  }

  lemma GarblingString()
    ensures Flat(After(GARBLING, 0)) == Bar("PH0") + ("PH1" + (Bar("PH1") + ""))
  {
    GarblingTokens();
    SmallTags();
    FlatPh(0, Chars("PH1") + [Ph(1)]);
    FlatCat(Chars("PH1"), [Ph(1)]);
    FlatChars("PH1");
    FlatPh(1, []);
    assert [Ph(1)] + [] == [Ph(1)];
  }

  lemma FirstTurn()
    ensures exists s :: Replace(Flat(After(GARBLING, 0)), Key(1), "`b`") == [NUL] + ("PH0`" + s)
  {
    GarblingString();
    SmallTags();
    hide After, Flat, Decimal;
    AtOther("PH0", "PH1", "PH1" + (Bar("PH1") + ""), "`b`");
    AtFalse("PH1", "PH1", "", "`b`");
    var z := Replace([NUL] + "", Bar("PH1"), "`b`");
    assert [NUL] + "PH0" + ("`b`" + ("PH1" + z)) == [NUL] + ("PH0`" + ("b`PH1" + z));
  }

  /** The promise of a full expansion is false in general: here the text spells out a key. */
  lemma GarbledExample()
    ensures Matches(Chars("`a`PH1`b`"), 0, [GARBLING])
    ensures var (ts, fs) := Convert(Chars("`a`PH1`b`"), [], [GARBLING]);
            RestoreFrom(Flat(ts), FlatAll(fs), |fs|) != Flat(Expand(ts, fs, |fs|))
  {
    GarblingTokens();
    OnePass(Chars("`a`PH1`b`"), GARBLING);
    ExpansionNulFree("`a`PH1`b`", [GARBLING]);
    var ts, fs := After(GARBLING, 0), Stored(GARBLING);
    var ss := FlatAll(fs);
    FlatChars("`b`");
    FirstTurn();
    var s :| Replace(Flat(ts), Key(1), "`b`") == [NUL] + ("PH0`" + s);
    StartsWithNul(Flat(ts), ss, s);
  }

  lemma OnePass(ts: Text, ps: seq<Piece>)
    requires ts == Before(ps)
    ensures Matches(ts, 0, [ps])
    ensures Convert(ts, [], [ps]) == (After(ps, 0), Stored(ps))
  {
    assert [ps][1..] == [];
    assert [] + Stored(ps) == Stored(ps);
  }

  lemma StartsWithNul(t: string, ss: seq<string>, s: string)
    requires |ss| == 2 && Replace(t, Key(1), ss[1]) == [NUL] + ("PH0`" + s)
    ensures NUL in RestoreFrom(t, ss, 2)
  {
    CutKeyStays(s, ss[0]);
    var u := [NUL] + ("PH0`" + s);
    assert RestoreFrom(t, ss, 2) == RestoreFrom(u, ss, 1) == RestoreFrom(Replace(u, Key(0), ss[0]), ss, 0);
    assert Replace(u, Key(0), ss[0])[0] == NUL;
  }

  lemma ExpansionNulFree(input: string, passes: seq<seq<Piece>>)
    requires NUL !in input && Matches(Chars(input), 0, passes)
    ensures var (ts, fs) := Convert(Chars(input), [], passes); NUL !in Flat(Expand(ts, fs, |fs|))
  {
    Converted(input, passes);
    var (ts, fs) := Convert(Chars(input), [], passes);
    RestoredIff(ts, fs);
  }

  // ── the function itself ─────────────────────────────────

  /** All passes, one after the other. */
  method PassAll(c: Converter, passes: seq<seq<Piece>>)
    requires Matches(c.text, |c.placeholders|, passes)
    modifies c
    ensures (c.text, c.placeholders) == Convert(old(c.text), old(c.placeholders), passes)
  {
    for i := 0 to |passes|
      invariant Matches(c.text, |c.placeholders|, passes[i..])
      invariant Convert(c.text, c.placeholders, passes[i..]) == Convert(old(c.text), old(c.placeholders), passes)
    {
      assert passes[i..][1..] == passes[i + 1..];
      c.Pass(passes[i]);
    }
  }

  /** `markdown_to_slack`, for given matches. */
  method MarkdownToSlack(input: string, passes: seq<seq<Piece>>) returns (r: string)
    requires Matches(Chars(input), 0, passes)
    ensures input == "" ==> r == ""
    ensures input != "" ==>
              var (ts, fs) := Convert(Chars(input), [], passes);
              && r == RestoreFrom(Flat(ts), FlatAll(fs), |fs|)
              && (NUL !in input ==> (r == Flat(Expand(ts, fs, |fs|)) <==> AllClean(ts, fs, |fs|)))
              && (NUL !in input ==> (NUL !in r <==> AllClean(ts, fs, |fs|)))
  {
    if input == "" {
      return "";
    }
    var c := new Converter(input);
    PassAll(c, passes);
    r := c.Restore();
    if NUL !in input {
      PlaceholderRestore(input, passes);
    }
  }
}
