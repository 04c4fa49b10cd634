/** The Python string methods that the program relies on. */
module PyStrings {

  /** What `str.strip()` removes. */
  const WHITE: set<char> := {
    '\t', '\n', '\U{0B}', '\U{0C}', '\r', '\U{1C}', '\U{1D}', '\U{1E}', '\U{1F}', ' ', '\U{85}', '\U{A0}', '\U{1680}',
    '\U{2000}', '\U{2001}', '\U{2002}', '\U{2003}', '\U{2004}', '\U{2005}', '\U{2006}', '\U{2007}', '\U{2008}',
    '\U{2009}', '\U{200A}', '\U{2028}', '\U{2029}', '\U{202F}', '\U{205F}', '\U{3000}'}

  /** Where `str.splitlines()` cuts. */
  const BREAKS: set<char> := {
    '\n', '\U{0B}', '\U{0C}', '\r', '\U{1C}', '\U{1D}', '\U{1E}', '\U{85}', '\U{2028}', '\U{2029}'}

  /** The same characters by their code points. */
  lemma CodePoints(c: char)
    ensures var n := c as int;
            c in BREAKS <==> 10 <= n <= 13 || 28 <= n <= 30 || n == 0x85 || n == 0x2028 || n == 0x2029
    ensures var n := c as int;
            c in WHITE <==>
              || 9 <= n <= 13 || 28 <= n <= 32 || n == 0x85 || n == 0xA0 || n == 0x1680
              || 0x2000 <= n <= 0x200A || n == 0x2028 || n == 0x2029 || n == 0x202F || n == 0x205F || n == 0x3000
    ensures c in BREAKS ==> c in WHITE
  {
  }

  /** Text without control characters is one line exactly if it has none of these three. */
  lemma OneLineIff(s: string)
    requires forall c :: c in s ==> c >= ' '
    ensures OneLine(s) <==> '\U{85}' !in s && '\U{2028}' !in s && '\U{2029}' !in s
  {
    forall c | c in s ensures c in BREAKS <==> c == '\U{85}' || c == '\U{2028}' || c == '\U{2029}' {
      CodePoints(c);
    }
  }

  // ── strip ───────────────────────────────────────────────

  function RTrim(s: string, cs: set<char>): (r: string)
    ensures r <= s
  {
    if s != "" && s[|s| - 1] in cs then RTrim(s[..|s| - 1], cs) else s
  }

  function LTrim(s: string, cs: set<char>): string {
    if s != "" && s[0] in cs then LTrim(s[1..], cs) else s
  }

  /** `s.strip(chars)`. */
  function Strip(s: string, cs: set<char>): string { LTrim(RTrim(s, cs), cs) }

  lemma {:induction false} RTrimTwice(s: string, cs: set<char>)
    ensures RTrim(RTrim(s, cs), cs) == RTrim(s, cs)
    ensures Strip(RTrim(s, cs), cs) == Strip(s, cs)
  {
    if s != "" && s[|s| - 1] in cs {
      RTrimTwice(s[..|s| - 1], cs);
    }
  }

  lemma {:induction false} RTrimCat(a: string, b: string, cs: set<char>)
    ensures RTrim(a + b, cs) == if RTrim(b, cs) == "" then RTrim(a, cs) else a + RTrim(b, cs)
    decreases |b|
  {
    if b == "" {
      assert a + b == a;
    } else if b[|b| - 1] in cs {
      assert (a + b)[..|a + b| - 1] == a + b[..|b| - 1];
      RTrimCat(a, b[..|b| - 1], cs);
    } else {
      assert (a + b)[|a + b| - 1] == b[|b| - 1];
    }
  }

  lemma {:induction false} RTrimAll(s: string, cs: set<char>)
    requires forall c :: c in s ==> c in cs
    ensures RTrim(s, cs) == ""
  {
    if s != "" {
      RTrimAll(s[..|s| - 1], cs);
    }
  }

  lemma {:induction false} LTrimCat(a: string, b: string, cs: set<char>)
    requires (forall c :: c in a ==> c in cs) && (b == "" || b[0] !in cs)
    ensures LTrim(a + b, cs) == b
  {
    if a == "" {
      assert a + b == b;
    } else {
      assert (a + b)[0] == a[0] && (a + b)[1..] == a[1..] + b;
      LTrimCat(a[1..], b, cs);
    }
  }

  /** What stripping means: all of these characters go at both ends, and nothing else. */
  lemma StripMeans(a: string, s: string, b: string, cs: set<char>)
    requires (forall c :: c in a ==> c in cs) && (forall c :: c in b ==> c in cs)
    requires s == "" || (s[0] !in cs && s[|s| - 1] !in cs)
    ensures Strip(a + s + b, cs) == s
  {
    RTrimCat(a + s, b, cs);
    RTrimAll(b, cs);
    RTrimCat(a, s, cs);
    if s == "" {
      RTrimAll(a, cs);
      assert a + s == a;
    } else {
      assert RTrim(s, cs) == s;
      LTrimCat(a, s, cs);
    }
  }

  // ── splitlines and join ─────────────────────────────────

  ghost predicate OneLine(s: string) { forall c :: c in s ==> c !in BREAKS }

  ghost predicate AllLines(ls: seq<string>) { forall i :: 0 <= i < |ls| ==> OneLine(ls[i]) }

  /** The length of the first line. */
  function LineEnd(s: string): (k: nat)
    ensures k <= |s|
    ensures forall i :: 0 <= i < k ==> s[i] !in BREAKS
    ensures k < |s| ==> s[k] in BREAKS
  {
    if s == "" || s[0] in BREAKS then 0 else 1 + LineEnd(s[1..])
  }

  /** `s.splitlines()`. */
  function SplitLines(s: string): (ls: seq<string>)
    ensures AllLines(ls)
    decreases |s|
  {
    if s == "" then []
    else
      var k := LineEnd(s);
      if k == |s| then [s] else [s[..k]] + SplitLines(s[k + 1..])
  }

  /** `"\n".join(ls)`. */
  function Join(ls: seq<string>): string {
    if ls == [] then "" else if |ls| == 1 then ls[0] else ls[0] + "\n" + Join(ls[1..])
  }

  lemma {:induction false} JoinSnoc(ls: seq<string>, x: string)
    requires ls != []
    ensures Join(ls + [x]) == Join(ls) + "\n" + x
  {
    assert (ls + [x])[1..] == ls[1..] + [x];
    if |ls| > 1 {
      JoinSnoc(ls[1..], x);
      assert ls[0] + "\n" + (Join(ls[1..]) + "\n" + x) == (ls[0] + "\n" + Join(ls[1..])) + "\n" + x;
    }
  }

  lemma FirstLine(u: string, r: string)
    requires OneLine(u)
    ensures SplitLines(u + "\n" + r) == [u] + SplitLines(r)
  {
    var s := u + "\n" + r;
    var k := LineEnd(s);
    assert s[|u|] == '\n';
    assert forall i :: 0 <= i < |u| ==> s[i] == u[i] && u[i] in u;
    assert k == |u|;
    assert s[..k] == u && s[k + 1..] == r;
  }

  lemma {:induction false} LineEndCat(t: string, u: string)
    requires LineEnd(t) < |t|
    ensures LineEnd(t + u) == LineEnd(t)
  {
    if t[0] !in BREAKS {
      assert (t + u)[1..] == t[1..] + u;
      LineEndCat(t[1..], u);
    }
  }

  lemma SplitStep(s: string, k: nat)
    requires k == LineEnd(s) < |s|
    ensures SplitLines(s) == [s[..k]] + SplitLines(s[k + 1..])
  {
    hide AllLines, LineEnd;
  }

  /** Text that is closed by a line feed is split apart from what follows. */
  lemma {:induction false} SplitCat(t: string, u: string)
    requires t == "" || t[|t| - 1] == '\n'
    ensures SplitLines(t + u) == SplitLines(t) + SplitLines(u)
    decreases |t|
  {
    hide AllLines, SplitLines, LineEnd;
    if t == "" {
      assert t + u == u;
      NoLines();
    } else {
      var k := LineEnd(t);
      assert t[|t| - 1] in BREAKS;
      var rest := t[k + 1..];
      LineEndCat(t, u);
      assert (t + u)[..k] == t[..k] && (t + u)[k + 1..] == rest + u;
      SplitStep(t, k);
      SplitStep(t + u, k);
      SplitCat(rest, u);
      assert [t[..k]] + (SplitLines(rest) + SplitLines(u)) == ([t[..k]] + SplitLines(rest)) + SplitLines(u);
    }
  }

  lemma NoLines()
    ensures SplitLines("") == []
  {
  }

  /** What splitting means: at each of these characters a line ends, and a last line needs no end. */
  lemma SplitMeans(u: string, c: char, r: string)
    requires OneLine(u) && c in BREAKS
    ensures SplitLines(u + [c] + r) == [u] + SplitLines(r)
    ensures SplitLines(u) == if u == "" then [] else [u]
  {
    var s := u + [c] + r;
    var k, m := LineEnd(s), LineEnd(u);
    assert s[|u|] == c;
    assert forall i :: 0 <= i < |u| ==> s[i] == u[i] && u[i] in u;
    assert k == |u| && m == |u|;
    assert s[..k] == u && s[k + 1..] == r;
  }

  /** Lines joined and closed by a line feed are split into the same lines. */
  lemma {:induction false} SplitJoined(ls: seq<string>)
    requires ls != [] && AllLines(ls)
    ensures SplitLines(Join(ls) + "\n") == ls
  {
    if |ls| == 1 {
      FirstLine(ls[0], "");
      assert ls[0] + "\n" + "" == Join(ls) + "\n";
    } else {
      var rest := Join(ls[1..]);
      assert Join(ls) == ls[0] + "\n" + rest;
      assert (ls[0] + "\n" + rest) + "\n" == ls[0] + "\n" + (rest + "\n");
      FirstLine(ls[0], rest + "\n");
      SplitJoined(ls[1..]);
      assert ls == [ls[0]] + ls[1..];
    }
  }

  // ── rstrip of a whole file, line by line ────────────────

  /** Blank lines at the end dropped, and the last other line stripped at its end. */
  function TrimEnd(ls: seq<string>, cs: set<char>): (r: seq<string>)
    ensures |r| <= |ls|
    ensures forall i :: 0 <= i < |r| - 1 ==> r[i] == ls[i]
    ensures r != [] ==> r[|r| - 1] == RTrim(ls[|r| - 1], cs) != ""
    ensures forall i :: |r| <= i < |ls| ==> RTrim(ls[i], cs) == ""
  {
    if ls == [] then []
    else
      var n := |ls| - 1;
      if RTrim(ls[n], cs) == "" then TrimEnd(ls[..n], cs) else ls[..n] + [RTrim(ls[n], cs)]
  }

  lemma NewlineTrimmed(a: string, cs: set<char>)
    requires '\n' in cs
    ensures RTrim(a + "\n", cs) == RTrim(a, cs)
  {
    assert (a + "\n")[..|a|] == a;
  }

  lemma {:induction false} RTrimJoin(ls: seq<string>, cs: set<char>)
    requires '\n' in cs
    ensures RTrim(Join(ls), cs) == Join(TrimEnd(ls, cs))
  {
    if |ls| > 1 {
      var n := |ls| - 1;
      var front, x := ls[..n], ls[n];
      assert ls == front + [x];
      JoinSnoc(front, x);
      RTrimCat(Join(front) + "\n", x, cs);
      if RTrim(x, cs) == "" {
        NewlineTrimmed(Join(front), cs);
        RTrimJoin(front, cs);
      } else {
        JoinSnoc(front, RTrim(x, cs));
      }
    } else if |ls| == 1 {
      assert ls[..0] == [];
      assert [] + [RTrim(ls[0], cs)] == [RTrim(ls[0], cs)];
    }
  }

  lemma TrimEndOneLines(ls: seq<string>, cs: set<char>)
    requires AllLines(ls)
    ensures AllLines(TrimEnd(ls, cs))
  {
    var us := TrimEnd(ls, cs);
    forall i | 0 <= i < |us| ensures OneLine(us[i]) {
      assert us[i] <= ls[i];
      PrefixOneLine(us[i], ls[i]);
    }
  }

  lemma PrefixOneLine(s: string, t: string)
    requires s <= t && OneLine(t)
    ensures OneLine(s)
  {
    forall c | c in s ensures c !in BREAKS {
      assert c in t;
    }
  }

  /** Putting a line back as it was before trimming makes no difference once trimmed again. */
  lemma TrimEndAgain(ls: seq<string>, i: nat, cs: set<char>)
    requires i < |TrimEnd(ls, cs)|
    ensures TrimEnd(TrimEnd(ls, cs)[i := ls[i]], cs) == TrimEnd(ls, cs)
  {
    var us := TrimEnd(ls, cs);
    var n := |us| - 1;
    var vs := us[i := ls[i]];
    RTrimTwice(ls[n], cs);
    assert vs[n] == us[n] || vs[n] == ls[n];
    assert TrimEnd(vs, cs) == vs[..n] + [us[n]];
    assert vs[..n] == us[..n];
    assert us == us[..n] + [us[n]];
  }
}
