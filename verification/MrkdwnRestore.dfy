/** When restoring placeholders on strings yields the full expansion, and when it does not. */
module MrkdwnRestore {
  import opened Mrkdwn

  // ── keys are told apart ─────────────────────────────────

  function Read(s: string): nat {
    if s == "" then 0
    else 10 * Read(s[..|s| - 1]) + if '0' <= s[|s| - 1] <= '9' then s[|s| - 1] as int - '0' as int else 0
  }

  lemma ReadDigit(s: string, d: nat)
    requires d < 10
    ensures Read(s + [Digit(d)]) == 10 * Read(s) + d
  {
    assert (s + [Digit(d)])[..|s|] == s;
    assert Digit(d) as int - '0' as int == d;
  }

  lemma {:induction false} ReadDecimal(n: nat)
    ensures Read(Decimal(n)) == n
    ensures Decimal(n) != ""
  {
    if n >= 10 {
      ReadDecimal(n / 10);
      ReadDigit(Decimal(n / 10), n % 10);
    } else {
      ReadDigit("", n);
      assert "" + [Digit(n)] == [Digit(n)];
    }
  }

  lemma TagInjective(j: nat, k: nat)
    ensures Tag(j) == Tag(k) <==> j == k
  {
    ReadDecimal(j);
    ReadDecimal(k);
    assert Tag(j)[2..] == Decimal(j) && Tag(k)[2..] == Decimal(k);
  }

  lemma {:induction false} DecimalNulFree(n: nat)
    ensures NUL !in Decimal(n)
  {
    if n >= 10 {
      DecimalNulFree(n / 10);
    }
  }

  lemma TagNulFree(k: nat)
    ensures NUL !in Tag(k) && |Tag(k)| >= 3 && Tag(k)[0] == 'P'
  {
    DecimalNulFree(k);
    ReadDecimal(k);
  }

  /** Up to its first NUL a string is determined. */
  lemma {:induction false} SameUpToNul(p: string, q: string, r: string)
    requires NUL !in p && NUL !in q
    ensures p + [NUL] <= q + [NUL] + r <==> p == q
  {
    if p == "" {
      assert p + [NUL] == [NUL];
      if q != "" {
        assert (q + [NUL] + r)[0] == q[0] && q[0] in q;
      }
    } else if q == "" {
      assert (p + [NUL])[0] == p[0] && p[0] in p && (q + [NUL] + r)[0] == NUL;
    } else {
      SameUpToNul(p[1..], q[1..], r);
      var a, b := p + [NUL], q + [NUL] + r;
      assert a[1..] == p[1..] + [NUL] && b[1..] == q[1..] + [NUL] + r;
      assert a == [p[0]] + a[1..] && b == [q[0]] + b[1..];
      assert p == [p[0]] + p[1..] && q == [q[0]] + q[1..];
      assert a <= b <==> p[0] == q[0] && a[1..] <= b[1..] by {
        PrefixHead(p[0], a[1..], q[0], b[1..]);
      }
    }
  }

  lemma PrefixHead(c: char, s: string, d: char, t: string)
    ensures [c] + s <= [d] + t <==> c == d && s <= t
  {
    if [c] + s <= [d] + t {
      assert ([c] + s)[0] == ([d] + t)[0];
      assert ([c] + s)[1..] == s && ([d] + t)[1..] == t;
    }
    if c == d && s <= t {
      assert [d] + t == [c] + s + t[|s|..];
    }
  }

  lemma BarMatches(t: string, u: string, r: string)
    requires NUL !in t && NUL !in u
    ensures Bar(t) <= Bar(u) + r <==> t == u
  {
    SameUpToNul(t, u, r);
    assert Bar(t) == [NUL] + (t + [NUL]);
    assert Bar(u) + r == [NUL] + (u + [NUL] + r);
    PrefixHead(NUL, t + [NUL], NUL, u + [NUL] + r);
  }

  // ── false keys ──────────────────────────────────────────

  /** After a placeholder: the tag of key k, spelt out in the text, and then another placeholder. */
  predicate Site(rest: Text, k: nat) {
    Spells(rest, Tag(k))
  }

  /** No placeholder other than k itself is followed by the tag of k and another placeholder. */
  predicate Clean(ts: Text, k: nat) {
    ts == [] || ((ts[0].Ph? && ts[0].k != k ==> !Site(ts[1..], k)) && Clean(ts[1..], k))
  }

  lemma {:induction false} FlatCat(s: Text, t: Text)
    ensures Flat(s + t) == Flat(s) + Flat(t)
  {
    if s == [] {
      assert s + t == t;
    } else {
      assert (s + t)[0] == s[0] && (s + t)[1..] == s[1..] + t;
      FlatCat(s[1..], t);
    }
  }

  lemma {:induction false} FlatChars(s: string)
    ensures Flat(Chars(s)) == s
  {
    if s != "" {
      assert Chars(s)[1..] == Chars(s[1..]);
      FlatChars(s[1..]);
    }
  }

  /** `ts` starts with the characters of p, followed by a placeholder. */
  predicate Spells(ts: Text, p: string) {
    |ts| > |p| && ts[..|p|] == Chars(p) && ts[|p|].Ph?
  }

  lemma SpellsTail(c: char, ts: Text, p: string)
    requires p != "" && p[0] == c
    ensures Spells([Ch(c)] + ts, p) <==> Spells(ts, p[1..])
  {
    var us := [Ch(c)] + ts;
    assert Chars(p) == [Ch(c)] + Chars(p[1..]);
    if |us| > |p| {
      assert us[..|p|] == [Ch(c)] + ts[..|p| - 1];
      assert us[..|p|][1..] == ts[..|p| - 1] && Chars(p)[1..] == Chars(p[1..]);
    }
  }

  lemma SpellsHead(ts: Text, p: string)
    requires ts != [] && p != "" && Spells(ts, p)
    ensures ts[0] == Ch(p[0])
  {
    assert ts[..|p|][0] == ts[0];
  }

  lemma SpelledOtherwise(p: string, ts: Text)
    requires NUL !in p && p != "" && ts != [] && NulFree(ts) && ts[0] != Ch(p[0])
    ensures !(p + [NUL] <= Flat(ts)) && !Spells(ts, p)
  {
    var f := Flat(ts);
    assert f[0] == if ts[0].Ch? then ts[0].c else NUL;
    assert (p + [NUL])[0] == p[0] && p[0] in p;
    if Spells(ts, p) {
      SpellsHead(ts, p);
    }
  }

  lemma {:induction false} SpelledOut(p: string, ts: Text)
    requires NUL !in p && NulFree(ts)
    ensures p + [NUL] <= Flat(ts) <==> Spells(ts, p)
    decreases |p|
  {
    if ts == [] {
    } else if p == "" {
      SpellsNothing(ts);
    } else {
      assert p + [NUL] == [p[0]] + (p[1..] + [NUL]);
      assert p[0] in p;
      if ts[0].Ph? || ts[0].c != p[0] {
        SpelledOtherwise(p, ts);
      } else {
        SpelledOut(p[1..], ts[1..]);
        PrefixHead(p[0], p[1..] + [NUL], p[0], Flat(ts[1..]));
        assert ts == [Ch(p[0])] + ts[1..];
        SpellsTail(p[0], ts[1..], p);
      }
    }
  }

  lemma SpellsNothing(ts: Text)
    requires ts != [] && NulFree(ts)
    ensures "" + [NUL] <= Flat(ts) <==> Spells(ts, "")
  {
    assert "" + [NUL] == [NUL] && ts[..0] == Chars("");
    var f := Flat(ts);
    assert f == [f[0]] + f[1..];
    PrefixHead(NUL, "", f[0], f[1..]);
  }

  lemma SiteIff(rest: Text, k: nat)
    requires NulFree(rest)
    ensures Key(k) <= [NUL] + Flat(rest) <==> Site(rest, k)
  {
    TagNulFree(k);
    SpelledOut(Tag(k), rest);
    assert Key(k) == [NUL] + (Tag(k) + [NUL]);
    PrefixHead(NUL, Tag(k) + [NUL], NUL, Flat(rest));
  }

  // ── str.replace, step by step ───────────────────────────

  /** Text without NUL is copied. */
  lemma {:induction false} SkipPlain(q: string, s: string, key: string, fill: string)
    requires NUL !in q && key != "" && key[0] == NUL
    ensures Replace(q + s, key, fill) == q + Replace(s, key, fill)
  {
    if q == "" {
      assert q + s == s;
    } else {
      assert q[0] in q;
      assert (q + s)[0] == q[0] && (q + s)[1..] == q[1..] + s;
      SkipPlain(q[1..], s, key, fill);
    }
  }

  lemma AtSame(t: string, s: string, fill: string)
    ensures Replace(Bar(t) + s, Bar(t), fill) == fill + Replace(s, Bar(t), fill)
  {
    assert (Bar(t) + s)[|Bar(t)|..] == s;
  }

  lemma AtNul(t: string, s: string, fill: string)
    requires !(Bar(t) <= [NUL] + s)
    ensures Replace([NUL] + s, Bar(t), fill) == [NUL] + Replace(s, Bar(t), fill)
  {
    assert ([NUL] + s)[1..] == s;
  }

  lemma AtOther(u: string, t: string, s: string, fill: string)
    requires NUL !in t && NUL !in u && t != u
    ensures Replace(Bar(u) + s, Bar(t), fill) == [NUL] + u + Replace([NUL] + s, Bar(t), fill)
  {
    BarMatches(t, u, s);
    assert Bar(u) + s == [NUL] + (u + ([NUL] + s));
    AtNul(t, u + ([NUL] + s), fill);
    SkipPlain(u, [NUL] + s, Bar(t), fill);
  }

  /** Two bars enclosing t, and the second bar belongs to u: the replacement eats both NULs. */
  lemma AtFalse(t: string, u: string, z: string, fill: string)
    requires NUL !in u
    ensures Replace([NUL] + (t + (Bar(u) + z)), Bar(t), fill) == fill + (u + Replace([NUL] + z, Bar(t), fill))
  {
    var s := [NUL] + (t + (Bar(u) + z));
    var x := u + ([NUL] + z);
    assert s == Bar(t) + x;
    AtSame(t, x, fill);
    SkipPlain(u, [NUL] + z, Bar(t), fill);
  }

  lemma SamePrefix(p: string, a: string, b: string)
    ensures p + a == p + b <==> a == b
  {
    assert (p + a)[|p|..] == a && (p + b)[|p|..] == b;
  }

  // ── one replacement ─────────────────────────────────────

  function Subst(ts: Text, k: nat, f: Text): Text {
    if ts == [] then [] else (if ts[0] == Ph(k) then f else [ts[0]]) + Subst(ts[1..], k, f)
  }

  lemma SubstStep(tok: Tok, ts: Text, k: nat, f: Text)
    ensures Subst([tok] + ts, k, f) == (if tok == Ph(k) then f else [tok]) + Subst(ts, k, f)
  {
    assert ([tok] + ts)[1..] == ts;
  }

  lemma CharsStep(q: string, ts: Text)
    requires q != ""
    ensures Chars(q) + ts == [Ch(q[0])] + (Chars(q[1..]) + ts)
  {
  }

  lemma {:induction false} SubstSkips(q: string, ts: Text, k: nat, f: Text)
    ensures Subst(Chars(q) + ts, k, f) == Chars(q) + Subst(ts, k, f)
  {
    if q == "" {
      assert Chars(q) + ts == ts;
    } else {
      SubstSkips(q[1..], ts, k, f);
      CharsStep(q, ts);
      SubstStep(Ch(q[0]), Chars(q[1..]) + ts, k, f);
      CharsStep(q, Subst(ts, k, f));
    }
  }

  /** How a fragment starts: not at all, with a character of its own, or with another placeholder. */
  ghost predicate StartsApart(f: Text, k: nat) {
    f == [] || f[0] != Ph(k)
  }

  lemma FlatHead(f: Text)
    requires f != [] && NulFree(f)
    ensures f[0].Ch? ==> Flat(f) == [f[0].c] + Flat(f[1..]) && f[0].c != NUL
    ensures f[0].Ph? ==> Flat(f) == Bar(Tag(f[0].k)) + Flat(f[1..])
  {
  }

  lemma FalseStringsDiffer(t: string, u: string, a: string, y: string, f: Text, k: nat)
    requires t == Tag(k) && NulFree(f) && StartsApart(f, k) && u != "" && u[0] == 'P'
    requires f != [] && f[0].Ph? ==> y != "" && y[0] == NUL
    ensures Flat(f) + (u + a) != [NUL] + (t + y)
  {
    var left, right := Flat(f) + (u + a), [NUL] + (t + y);
    if f == [] {
      assert left[0] == 'P' && right[0] == NUL;
    } else {
      FlatHead(f);
      if f[0].Ch? {
        assert left[0] == f[0].c && right[0] == NUL;
      } else {
        TagNulFree(k);
        TagNulFree(f[0].k);
        TagInjective(f[0].k, k);
        BarsDiffer(Tag(f[0].k), t, Flat(f[1..]) + (u + a), y[1..]);
        assert left == Bar(Tag(f[0].k)) + (Flat(f[1..]) + (u + a));
        assert right == Bar(t) + y[1..];
      }
    }
  }

  lemma BarsDiffer(v: string, t: string, a: string, b: string)
    requires NUL !in v && NUL !in t && v != t
    ensures Bar(v) + a != Bar(t) + b
  {
    BarMatches(v, t, b);
    assert Bar(v) <= Bar(v) + a;
  }

  lemma SiteShape(rest: Text, k: nat)
    requires Site(rest, k)
    ensures var m := |Tag(k)|;
            && rest == Chars(Tag(k)) + ([rest[m]] + rest[m + 1..])
            && Flat(rest) == Tag(k) + (Bar(Tag(rest[m].k)) + Flat(rest[m + 1..]))
  {
    var m := |Tag(k)|;
    assert rest == Chars(Tag(k)) + ([rest[m]] + rest[m + 1..]);
    FlatCat(Chars(Tag(k)), [rest[m]] + rest[m + 1..]);
    FlatChars(Tag(k));
    assert ([rest[m]] + rest[m + 1..])[1..] == rest[m + 1..];
  }

  lemma SubstAtSite(rest: Text, k: nat, f: Text)
    requires Site(rest, k)
    ensures exists y :: Flat(Subst(rest, k, f)) == Tag(k) + y && (f != [] && f[0].Ph? ==> y != "" && y[0] == NUL)
  {
    var m := |Tag(k)|;
    var ts := [rest[m]] + rest[m + 1..];
    SiteShape(rest, k);
    SubstSkips(Tag(k), ts, k, f);
    FlatCat(Chars(Tag(k)), Subst(ts, k, f));
    FlatChars(Tag(k));
    assert ts[1..] == rest[m + 1..];
    var head := if ts[0] == Ph(k) then f else [ts[0]];
    FlatCat(head, Subst(ts[1..], k, f));
    var y := Flat(Subst(ts, k, f));
    assert Flat(Subst(rest, k, f)) == Tag(k) + y;
  }

  /** At a false key the replacement goes wrong at once. */
  lemma FalseKeyDiffers(rest: Text, k: nat, f: Text)
    requires NulFree(f) && StartsApart(f, k) && Site(rest, k)
    ensures Replace([NUL] + Flat(rest), Key(k), Flat(f)) != [NUL] + Flat(Subst(rest, k, f))
  {
    var r := rest[|Tag(k)|].k;
    var z := Flat(rest[|Tag(k)| + 1..]);
    SiteShape(rest, k);
    SubstAtSite(rest, k, f);
    var y :| Flat(Subst(rest, k, f)) == Tag(k) + y && (f != [] && f[0].Ph? ==> y != "" && y[0] == NUL);
    TagNulFree(r);
    AtFalse(Tag(k), Tag(r), z, Flat(f));
    FalseStringsDiffer(Tag(k), Tag(r), Replace([NUL] + z, Key(k), Flat(f)), y, f, k);
  }

  lemma AtChar(c: char, ts: Text, k: nat, f: Text)
    requires c != NUL
    ensures Replace(Flat([Ch(c)] + ts), Key(k), Flat(f)) == [c] + Replace(Flat(ts), Key(k), Flat(f))
    ensures Flat(Subst([Ch(c)] + ts, k, f)) == [c] + Flat(Subst(ts, k, f))
  {
    assert ([Ch(c)] + ts)[1..] == ts;
    assert ([Ch(c)] + Subst(ts, k, f))[1..] == Subst(ts, k, f);
    SkipPlain([c], Flat(ts), Key(k), Flat(f));
  }

  lemma AtItsKey(ts: Text, k: nat, f: Text)
    ensures Replace(Flat([Ph(k)] + ts), Key(k), Flat(f)) == Flat(f) + Replace(Flat(ts), Key(k), Flat(f))
    ensures Flat(Subst([Ph(k)] + ts, k, f)) == Flat(f) + Flat(Subst(ts, k, f))
  {
    assert ([Ph(k)] + ts)[1..] == ts;
    AtSame(Tag(k), Flat(ts), Flat(f));
    FlatCat(f, Subst(ts, k, f));
  }

  lemma OtherKeys(j: nat, k: nat)
    requires j != k
    ensures NUL !in Tag(j) && NUL !in Tag(k) && Tag(j) != Tag(k)
  {
    TagNulFree(j);
    TagNulFree(k);
    TagInjective(j, k);
  }

  lemma FlatPh(j: nat, ts: Text)
    ensures Flat([Ph(j)] + ts) == Bar(Tag(j)) + Flat(ts)
  {
    assert ([Ph(j)] + ts)[1..] == ts;
  }

  lemma BarAgain(u: string, s: string)
    ensures Bar(u) + s == [NUL] + u + ([NUL] + s)
  {
  }

  lemma AtOtherKey(j: nat, ts: Text, k: nat, f: Text)
    requires j != k
    ensures Replace(Flat([Ph(j)] + ts), Key(k), Flat(f)) == [NUL] + Tag(j) + Replace([NUL] + Flat(ts), Key(k), Flat(f))
    ensures Flat(Subst([Ph(j)] + ts, k, f)) == [NUL] + Tag(j) + ([NUL] + Flat(Subst(ts, k, f)))
  {
    OtherKeys(j, k);
    FlatPh(j, ts);
    AtOther(Tag(j), Tag(k), Flat(ts), Flat(f));
    SubstStep(Ph(j), ts, k, f);
    FlatPh(j, Subst(ts, k, f));
    BarAgain(Tag(j), Flat(Subst(ts, k, f)));
  }

  /** Replacing key k in the string puts its fragment in place of the placeholder, and changes
      nothing else, exactly when the text has no false key k. */
  lemma {:induction false} ReplaceIff(ts: Text, k: nat, f: Text)
    requires NulFree(ts) && NulFree(f) && StartsApart(f, k)
    ensures Replace(Flat(ts), Key(k), Flat(f)) == Flat(Subst(ts, k, f)) <==> Clean(ts, k)
    decreases |ts|
  {
    if ts != [] {
      var tail := ts[1..];
      assert ts == [ts[0]] + tail;
      ReplaceIff(tail, k, f);
      var a, b := Replace(Flat(tail), Key(k), Flat(f)), Flat(Subst(tail, k, f));
      if ts[0].Ch? {
        AtChar(ts[0].c, tail, k, f);
        SamePrefix([ts[0].c], a, b);
      } else if ts[0].k == k {
        AtItsKey(tail, k, f);
        SamePrefix(Flat(f), a, b);
      } else {
        AtOtherKey(ts[0].k, tail, k, f);
        var c := Replace([NUL] + Flat(tail), Key(k), Flat(f));
        SamePrefix([NUL] + Tag(ts[0].k), c, [NUL] + b);
        SiteIff(tail, k);
        if Site(tail, k) {
          FalseKeyDiffers(tail, k, f);
        } else {
          AtNul(Tag(k), Flat(tail), Flat(f));
          SamePrefix([NUL], a, b);
        }
      }
    }
  }
}
