/** Through all passes: every key exactly once, and fragments that refer to earlier keys only. */
module MrkdwnKeys {
  import opened Mrkdwn
  import PyStrings

  function Keys(ts: Text): multiset<nat> {
    if ts == [] then multiset{}
    else (if ts[0].Ph? then multiset{ts[0].k} else multiset{}) + Keys(ts[1..])
  }

  function KeysAll(fs: seq<Text>): multiset<nat> {
    if fs == [] then multiset{} else Keys(fs[0]) + KeysAll(fs[1..])
  }

  lemma {:induction false} KeysCat(s: Text, t: Text)
    ensures Keys(s + t) == Keys(s) + Keys(t)
  {
    if s == [] {
      assert s + t == t;
    } else {
      assert (s + t)[0] == s[0] && (s + t)[1..] == s[1..] + t;
      KeysCat(s[1..], t);
    }
  }

  lemma {:induction false} KeysAllCat(s: seq<Text>, t: seq<Text>)
    ensures KeysAll(s + t) == KeysAll(s) + KeysAll(t)
  {
    if s == [] {
      assert s + t == t;
    } else {
      assert (s + t)[0] == s[0] && (s + t)[1..] == s[1..] + t;
      KeysAllCat(s[1..], t);
    }
  }

  lemma {:induction false} KeysChars(s: string)
    ensures Keys(Chars(s)) == multiset{}
  {
    if s != "" {
      assert Chars(s)[1..] == Chars(s[1..]);
      KeysChars(s[1..]);
    }
  }

  lemma KeysSnoc(ts: Text, c: char)
    ensures Keys(ts + [Ch(c)]) == Keys(ts)
  {
    KeysCat(ts, [Ch(c)]);
    assert [Ch(c)][1..] == [];
  }

  lemma {:induction false} KeysRStrip(ts: Text, cs: set<char>)
    ensures Keys(RStrip(ts, cs)) == Keys(ts)
  {
    if ts != [] && ts[|ts| - 1].Ch? && ts[|ts| - 1].c in cs {
      var front := ts[..|ts| - 1];
      KeysRStrip(front, cs);
      KeysSnoc(front, ts[|ts| - 1].c);
      assert ts == front + [Ch(ts[|ts| - 1].c)];
    }
  }

  lemma Wrapped(a: string, ts: Text, b: string)
    ensures Keys(Chars(a) + ts + Chars(b)) == Keys(ts)
  {
    KeysCat(Chars(a) + ts, Chars(b));
    KeysCat(Chars(a), ts);
    KeysChars(a);
    KeysChars(b);
  }

  lemma Prefixed(a: string, ts: Text)
    ensures Keys(Chars(a) + ts) == Keys(ts)
  {
    KeysCat(Chars(a), ts);
    KeysChars(a);
  }

  lemma BetweenMarks(a: string, s: Text, b: string, t: Text, c: string)
    ensures Keys(Chars(a) + s + Chars(b) + t + Chars(c)) == Keys(s) + Keys(t)
  {
    KeysCat(Chars(a) + s + Chars(b) + t, Chars(c));
    KeysCat(Chars(a) + s + Chars(b), t);
    Wrapped(a, s, b);
    KeysChars(c);
  }

  lemma FenceKeepsKeys(lang: string, body: Text)
    ensures Keys(Fragment(Fence(lang, body))) == Keys(Source(Fence(lang, body)))
  {
    Wrapped("```", RStrip(body, PyStrings.WHITE), "\n```");
    KeysRStrip(body, PyStrings.WHITE);
    BetweenMarks("```", [], lang, body, "```");
    assert Chars("```") + [] + Chars(lang) + body + Chars("```") == Source(Fence(lang, body));
  }

  lemma LinkKeepsKeys(caption: Text, target: Text)
    ensures Keys(Fragment(Link(caption, target))) == Keys(Source(Link(caption, target)))
  {
    BetweenMarks("[", caption, "](", target, ")");
    BetweenMarks("<", target, "|", caption, ">");
  }

  lemma TwicePrefixed(a: string, b: string, ts: Text)
    ensures Keys(Chars(a) + Chars(b) + ts) == Keys(ts)
  {
    Prefixed(a, Chars(b) + ts);
    Prefixed(b, ts);
    Regroup(Chars(a), Chars(b), ts);
  }

  lemma HeaderKeepsKeys(hashes: string, title: Text)
    ensures Keys(Fragment(Header(hashes, title))) == Keys(Source(Header(hashes, title)))
  {
    TwicePrefixed(hashes, " ", title);
    Wrapped("*", title, "*");
  }

  lemma BulletKeepsKeys(mark: char, item: Text)
    ensures Keys(Fragment(Bullet(mark, item))) == Keys(Source(Bullet(mark, item)))
  {
    hide Keys;
    assert Chars([mark]) == [Ch(mark)];
    TwicePrefixed([mark], " ", item);
    Prefixed("• ", item);
  }

  /** A fragment holds the keys of the span it stands for, each as often. */
  lemma FragmentKeepsKeys(m: Match)
    ensures Keys(Fragment(m)) == Keys(Source(m))
  {
    hide Keys;
    match m
    case Fence(lang, body) => FenceKeepsKeys(lang, body);
    case Code(body) =>
    case Link(caption, target) => LinkKeepsKeys(caption, target);
    case Url(_, _) =>
    case Quote =>
    case Header(hashes, title) => HeaderKeepsKeys(hashes, title);
    case Rule(marks) =>
      KeysChars(marks);
      KeysChars(seq(32, _ => '─'));
    case Bullet(mark, item) => BulletKeepsKeys(mark, item);
    case Numbered(_, _) =>
    case Bold(body) => Wrapped("**", body, "**"); Wrapped("*", body, "*");
    case Italic(body) => Wrapped("*", body, "*"); Wrapped("_", body, "_");
    case Strike(body) => Wrapped("~~", body, "~~"); Wrapped("~", body, "~");
  }

  /** Each key below n occurs exactly once in the text and the fragments together. */
  ghost predicate EachOnce(text: Text, fs: seq<Text>) {
    forall k: nat :: (Keys(text) + KeysAll(fs))[k] == if k < |fs| then 1 else 0
  }

  /** Fragments refer to earlier keys only. */
  ghost predicate Backward(fs: seq<Text>) {
    forall i, k: nat :: 0 <= i < |fs| && k in Keys(fs[i]) ==> k < i
  }

  lemma KeepKeys(ps: seq<Piece>, n: nat)
    requires ps != [] && ps[0].Keep?
    ensures Keys(Before(ps)) == Keys(ps[0].kept) + Keys(Before(ps[1..]))
    ensures Keys(After(ps, n)) == Keys(ps[0].kept) + Keys(After(ps[1..], n))
    ensures Stored(ps) == Stored(ps[1..])
  {
    KeysCat(ps[0].kept, Before(ps[1..]));
    KeysCat(ps[0].kept, After(ps[1..], n));
  }

  lemma HitKeys(ps: seq<Piece>, n: nat)
    requires ps != [] && ps[0].Hit?
    ensures Keys(Before(ps)) == Keys(Fragment(ps[0].m)) + Keys(Before(ps[1..]))
    ensures Keys(After(ps, n)) == multiset{n} + Keys(After(ps[1..], n + 1))
    ensures KeysAll(Stored(ps)) == Keys(Fragment(ps[0].m)) + KeysAll(Stored(ps[1..]))
    ensures |Stored(ps)| == 1 + |Stored(ps[1..])|
  {
    FragmentKeepsKeys(ps[0].m);
    KeysCat(Source(ps[0].m), Before(ps[1..]));
    assert ([Ph(n)] + After(ps[1..], n + 1))[1..] == After(ps[1..], n + 1);
    assert ([Fragment(ps[0].m)] + Stored(ps[1..]))[1..] == Stored(ps[1..]);
  }

  lemma AtHit(n: nat, m: nat, k: nat)
    ensures (multiset{n})[k] + (if n + 1 <= k < n + 1 + m then 1 else 0) == if n <= k < n + 1 + m then 1 else 0
  {
  }

  lemma NoPieces(n: nat)
    ensures Keys(After([], n)) == Keys(Before([])) == multiset{} && Stored([]) == [] && KeysAll([]) == multiset{}
  {
  }

  /** A pass moves keys from the text to the fragments and adds the new ones to the text. */
  lemma {:induction false} PassKeepsKeys(ps: seq<Piece>, n: nat, k: nat)
    ensures Keys(After(ps, n))[k] + KeysAll(Stored(ps))[k] ==
            Keys(Before(ps))[k] + if n <= k < n + |Stored(ps)| then 1 else 0
    decreases |ps|
  {
    hide Keys, KeysAll, After, Before, Stored;
    if ps == [] {
      NoPieces(n);
    } else {
      if ps[0].Keep? {
        KeepKeys(ps, n);
        PassKeepsKeys(ps[1..], n, k);
      } else {
        HitKeys(ps, n);
        PassKeepsKeys(ps[1..], n + 1, k);
        AtHit(n, |Stored(ps[1..])|, k);
      }
    }
  }

  lemma {:induction false} StoredBackward(ps: seq<Piece>, i: nat, k: nat)
    requires i < |Stored(ps)| && k in Keys(Stored(ps)[i])
    ensures k in Keys(Before(ps))
  {
    if ps[0].Keep? {
      assert Stored(ps) == Stored(ps[1..]);
      StoredBackward(ps[1..], i, k);
      KeysCat(ps[0].kept, Before(ps[1..]));
    } else {
      FragmentKeepsKeys(ps[0].m);
      KeysCat(Source(ps[0].m), Before(ps[1..]));
      if i > 0 {
        assert Stored(ps)[i] == Stored(ps[1..])[i - 1];
        StoredBackward(ps[1..], i - 1, k);
      }
    }
  }

  /** Every pass keeps each key unique and every fragment referring backwards. */
  lemma PassKeepsEachOnce(ps: seq<Piece>, fs: seq<Text>)
    requires EachOnce(Before(ps), fs) && Backward(fs)
    ensures EachOnce(After(ps, |fs|), fs + Stored(ps)) && Backward(fs + Stored(ps))
  {
    var n, m := |fs|, |Stored(ps)|;
    KeysAllCat(fs, Stored(ps));
    forall k: nat ensures (Keys(After(ps, n)) + KeysAll(fs + Stored(ps)))[k] == if k < n + m then 1 else 0 {
      PassKeepsKeys(ps, n, k);
      assert (Keys(Before(ps)) + KeysAll(fs))[k] == if k < n then 1 else 0;
    }
    PassKeepsBackward(ps, fs);
  }

  lemma PassKeepsBackward(ps: seq<Piece>, fs: seq<Text>)
    requires EachOnce(Before(ps), fs) && Backward(fs)
    ensures Backward(fs + Stored(ps))
  {
    var n := |fs|;
    forall i, k: nat | 0 <= i < n + |Stored(ps)| && k in Keys((fs + Stored(ps))[i]) ensures k < i {
      if i < n {
        assert (fs + Stored(ps))[i] == fs[i];
      } else {
        assert (fs + Stored(ps))[i] == Stored(ps)[i - n];
        StoredBackward(ps, i - n, k);
        assert (Keys(Before(ps)) + KeysAll(fs))[k] >= 1;
      }
    }
  }

  lemma StartEachOnce(input: string)
    ensures EachOnce(Chars(input), []) && Backward([])
  {
    KeysChars(input);
  }
}
