/** What a false key does to the text: it cuts a key, and the NUL that opened that key is never
    removed again, because no fragment lets a key be completed there. */
module MrkdwnCuts {
  import opened Mrkdwn
  import opened MrkdwnRestore

  predicate IsDigit(c: char) { '0' <= c <= '9' }

  /** Digits at most, and then some character that is neither a digit nor NUL. */
  predicate Sealed(w: string) {
    w != "" && w[0] != NUL && (IsDigit(w[0]) ==> Sealed(w[1..]))
  }

  predicate SealedText(f: Text) {
    f != [] && f[0].Ch? && (IsDigit(f[0].c) ==> SealedText(f[1..]))
  }

  ghost predicate AllSealed(fs: seq<Text>) {
    forall i :: 0 <= i < |fs| ==> SealedText(fs[i])
  }

  lemma {:induction false} NumberSealed(number: string, rest: Text)
    requires SealedText(rest)
    ensures SealedText(Chars(number) + rest)
  {
    if number == "" {
      assert Chars(number) + rest == rest;
    } else {
      CharsStep(number, rest);
      NumberSealed(number[1..], rest);
      assert ([Ch(number[0])] + (Chars(number[1..]) + rest))[1..] == Chars(number[1..]) + rest;
    }
  }

  /** Every fragment starts with a mark, a scheme, or a number and a period. */
  lemma FragmentSealed(m: Match)
    ensures SealedText(Fragment(m))
  {
    if m.Numbered? {
      NumberSealed(m.number, Chars(". ") + m.entry);
      Regroup(Chars(m.number), Chars(". "), m.entry);
    } else {
      assert Fragment(m) != [] && Fragment(m)[0].Ch? && !IsDigit(Fragment(m)[0].c);
    }
  }

  lemma {:induction false} SealedFlat(f: Text, x: string)
    requires SealedText(f) && NulFree(f)
    ensures Sealed(Flat(f) + x)
  {
    var w := Flat(f) + x;
    FlatStep(f, x);
    assert w[0] == f[0].c && w[1..] == Flat(f[1..]) + x;
    if IsDigit(f[0].c) {
      SealedFlat(f[1..], x);
    }
  }

  // ── no key can be completed there ───────────────────────

  lemma {:induction false} DigitsThenSealed(d: string, w: string)
    requires (forall i :: 0 <= i < |d| ==> IsDigit(d[i])) && Sealed(w)
    ensures Sealed(d + w)
  {
    if d == "" {
      assert d + w == w;
    } else {
      assert (d + w)[0] == d[0] && (d + w)[1..] == d[1..] + w;
      DigitsThenSealed(d[1..], w);
    }
  }

  lemma {:induction false} NoNulAfterDigits(d: string, w: string)
    requires (forall i :: 0 <= i < |d| ==> IsDigit(d[i])) && Sealed(w)
    ensures !(d + [NUL] <= w)
  {
    if d + [NUL] <= w {
      assert (d + [NUL])[0] == w[0];
      if d != "" {
        assert (d + [NUL])[1..] == d[1..] + [NUL];
        assert (d + [NUL])[1..] <= w[1..];
        NoNulAfterDigits(d[1..], w[1..]);
      }
    }
  }

  lemma {:induction false} DecimalDigits(n: nat)
    ensures forall i :: 0 <= i < |Decimal(n)| ==> IsDigit(Decimal(n)[i])
  {
    if n >= 10 {
      DecimalDigits(n / 10);
    }
  }

  lemma NoKeyAt(j: nat, r: nat, w: string)
    requires Sealed(w)
    ensures !(Key(j) <= [NUL] + (Tag(r) + w))
  {
    DecimalDigits(j);
    DecimalDigits(r);
    DigitsThenSealed(Decimal(r), w);
    NoNulAfterDigits(Decimal(j), Decimal(r) + w);
    var p := [NUL] + "PH";
    assert Key(j) == p + (Decimal(j) + [NUL]);
    assert [NUL] + (Tag(r) + w) == p + (Decimal(r) + w);
    PrefixAfter(p, Decimal(j) + [NUL], Decimal(r) + w);
  }

  lemma PrefixAfter(p: string, a: string, b: string)
    ensures p + a <= p + b <==> a <= b
  {
    if p + a <= p + b {
      assert (p + a)[|p|..] == a && (p + b)[|p|..] == b;
    }
  }

  lemma {:induction false} SealedReplaced(w: string, j: nat, fill: string)
    requires Sealed(w)
    ensures Sealed(Replace(w, Key(j), fill))
  {
    SkipPlain([w[0]], w[1..], Key(j), fill);
    assert w == [w[0]] + w[1..];
    var v := Replace(w[1..], Key(j), fill);
    assert ([w[0]] + v)[1..] == v;
    if IsDigit(w[0]) {
      SealedReplaced(w[1..], j, fill);
    }
  }

  // ── a cut key ───────────────────────────────────────────

  /** The string stands for some text, up to a NUL and a tag after which no key can be completed. */
  ghost predicate CutAt(s: string, us: Text, r: nat, w: string) {
    NulFree(us) && Sealed(w) && s == Flat(us) + ([NUL] + (Tag(r) + w))
  }

  ghost predicate CutForm(s: string) {
    exists us, r, w :: CutAt(s, us, r, w)
  }

  lemma CutHasNul(s: string)
    requires CutForm(s)
    ensures NUL in s
  {
    var us, r, w :| CutAt(s, us, r, w);
    assert s[|Flat(us)|] == NUL;
  }

  lemma CutPrefixed(p: Text, s: string)
    requires NulFree(p) && CutForm(s)
    ensures CutForm(Flat(p) + s)
  {
    var us, r, w :| CutAt(s, us, r, w);
    FlatCat(p, us);
    Regroup(Flat(p), Flat(us), [NUL] + (Tag(r) + w));
    assert CutAt(Flat(p) + s, p + us, r, w);
  }

  lemma CutHere(r: nat, w: string)
    requires Sealed(w)
    ensures CutForm([NUL] + (Tag(r) + w))
  {
    assert [NUL] + (Tag(r) + w) == Flat([]) + ([NUL] + (Tag(r) + w));
    assert CutAt([NUL] + (Tag(r) + w), [], r, w);
  }

  /** The key of another placeholder, whose closing NUL is taken for the start of key j. */
  lemma CutByFalseKey(x: nat, rest: string, j: nat, f: Text)
    requires x != j && Key(j) <= [NUL] + rest && SealedText(f) && NulFree(f)
    ensures CutForm(Replace(Bar(Tag(x)) + rest, Key(j), Flat(f)))
  {
    OtherKeys(x, j);
    AtOther(Tag(x), Tag(j), rest, Flat(f));
    var v := ([NUL] + rest)[|Key(j)|..];
    var z := Replace(v, Key(j), Flat(f));
    assert [NUL] + rest == Bar(Tag(j)) + v;
    AtSame(Tag(j), v, Flat(f));
    SealedFlat(f, z);
    CutHere(x, Flat(f) + z);
    Regroup([NUL], Tag(x), Flat(f) + z);
  }

  /** The key of another placeholder that is left whole. */
  lemma OtherLeftWhole(x: nat, rest: string, j: nat, f: Text)
    requires x != j && !(Key(j) <= [NUL] + rest) && CutForm(Replace(rest, Key(j), Flat(f)))
    ensures CutForm(Replace(Bar(Tag(x)) + rest, Key(j), Flat(f)))
  {
    OtherKeys(x, j);
    AtOther(Tag(x), Tag(j), rest, Flat(f));
    AtNul(Tag(j), rest, Flat(f));
    BarAgain(Tag(x), Replace(rest, Key(j), Flat(f)));
    FlatPh(x, []);
    assert [Ph(x)] + [] == [Ph(x)];
    assert Bar(Tag(x)) + "" == Bar(Tag(x));
    CutPrefixed([Ph(x)], Replace(rest, Key(j), Flat(f)));
  }

  lemma CharLeft(c: char, rest: string, j: nat, f: Text)
    requires c != NUL && CutForm(Replace(rest, Key(j), Flat(f)))
    ensures CutForm(Replace([c] + rest, Key(j), Flat(f)))
  {
    SkipPlain([c], rest, Key(j), Flat(f));
    FlatChars([c]);
    CutPrefixed(Chars([c]), Replace(rest, Key(j), Flat(f)));
  }

  lemma KeyFilled(rest: string, j: nat, f: Text)
    requires NulFree(f) && CutForm(Replace(rest, Key(j), Flat(f)))
    ensures CutForm(Replace(Bar(Tag(j)) + rest, Key(j), Flat(f)))
  {
    AtSame(Tag(j), rest, Flat(f));
    CutPrefixed(f, Replace(rest, Key(j), Flat(f)));
  }

  lemma EndOfCut(r: nat, w: string, j: nat, f: Text)
    requires Sealed(w)
    ensures CutForm(Replace([NUL] + (Tag(r) + w), Key(j), Flat(f)))
  {
    NoKeyAt(j, r, w);
    AtNul(Tag(j), Tag(r) + w, Flat(f));
    TagNulFree(r);
    SkipPlain(Tag(r), w, Key(j), Flat(f));
    SealedReplaced(w, j, Flat(f));
    CutHere(r, Replace(w, Key(j), Flat(f)));
  }

  /** Further replacements may move the cut to the left, but never mend it. */
  lemma {:induction false} CutAtKept(us: Text, r: nat, w: string, j: nat, f: Text)
    requires NulFree(us) && Sealed(w) && SealedText(f) && NulFree(f)
    ensures CutForm(Replace(Flat(us) + ([NUL] + (Tag(r) + w)), Key(j), Flat(f)))
    decreases |us|
  {
    var tail := [NUL] + (Tag(r) + w);
    FlatStep(us, tail);
    if us == [] {
      EndOfCut(r, w, j, f);
    } else {
      CutAtKept(us[1..], r, w, j, f);
      if us[0].Ch? {
        CharLeft(us[0].c, Flat(us[1..]) + tail, j, f);
      } else {
        PlaceholderCut(us[0].k, Flat(us[1..]) + tail, j, f);
      }
    }
  }

  lemma FlatStep(us: Text, tail: string)
    ensures us == [] ==> Flat(us) + tail == tail
    ensures us != [] && us[0].Ch? ==> Flat(us) + tail == [us[0].c] + (Flat(us[1..]) + tail)
    ensures us != [] && us[0].Ph? ==> Flat(us) + tail == Bar(Tag(us[0].k)) + (Flat(us[1..]) + tail)
  {
    if us == [] {
      assert "" + tail == tail;
    } else if us[0].Ch? {
      Regroup([us[0].c], Flat(us[1..]), tail);
    } else {
      Regroup(Key(us[0].k), Flat(us[1..]), tail);
    }
  }

  lemma PlaceholderCut(x: nat, rest: string, j: nat, f: Text)
    requires SealedText(f) && NulFree(f) && CutForm(Replace(rest, Key(j), Flat(f)))
    ensures CutForm(Replace(Bar(Tag(x)) + rest, Key(j), Flat(f)))
  {
    if x == j {
      KeyFilled(rest, j, f);
    } else if Key(j) <= [NUL] + rest {
      CutByFalseKey(x, rest, j, f);
    } else {
      OtherLeftWhole(x, rest, j, f);
    }
  }

  lemma CutKept(s: string, j: nat, f: Text)
    requires CutForm(s) && SealedText(f) && NulFree(f)
    ensures CutForm(Replace(s, Key(j), Flat(f)))
  {
    var us, r, w :| CutAt(s, us, r, w);
    CutAtKept(us, r, w, j, f);
  }

  /** A false key makes a cut. */
  lemma {:induction false} CutMade(ts: Text, k: nat, f: Text)
    requires NulFree(ts) && NulFree(f) && SealedText(f) && !Clean(ts, k)
    ensures CutForm(Replace(Flat(ts), Key(k), Flat(f)))
    decreases |ts|
  {
    var tail := ts[1..];
    if ts[0].Ch? {
      CutMade(tail, k, f);
      CharLeft(ts[0].c, Flat(tail), k, f);
    } else {
      SiteIff(tail, k);
      if ts[0].k != k && Site(tail, k) {
        CutByFalseKey(ts[0].k, Flat(tail), k, f);
      } else {
        CutMade(tail, k, f);
        PlaceholderCut(ts[0].k, Flat(tail), k, f);
      }
    }
  }
}
