/** What becomes of a message with one span of each kind, in strings. */
module MrkdwnSpans {
  import PyStrings
  import opened Mrkdwn
  import opened MrkdwnRestore
  import opened MrkdwnExpand

  /** The message as it comes out of `markdown_to_slack`, for given matches. */
  ghost function Slacked(input: string, passes: seq<seq<Piece>>): string {
    var (ts, fs) := Convert(Chars(input), [], passes); RestoreFrom(Flat(ts), FlatAll(fs), |fs|)
  }

  function Span(a: string, m: Match, b: string): seq<Piece> {
    [Keep(Chars(a))] + ([Hit(m)] + ([Keep(Chars(b))] + []))
  }

  lemma SpanParts(a: string, m: Match, b: string)
    ensures Before(Span(a, m, b)) == Chars(a) + (Source(m) + Chars(b))
    ensures After(Span(a, m, b), 0) == Chars(a) + ([Ph(0)] + Chars(b))
    ensures Stored(Span(a, m, b)) == [Fragment(m)]
  {
    KeepFirst(Chars(b), [], 0);
    KeepFirst(Chars(b), [], 1);
    HitFirst(m, [Keep(Chars(b))] + [], 0);
    KeepFirst(Chars(a), [Hit(m)] + ([Keep(Chars(b))] + []), 0);
    assert Chars(b) + [] == Chars(b) && [Fragment(m)] + [] == [Fragment(m)];
  }

  lemma CharsCat(a: string, b: string)
    ensures Chars(a + b) == Chars(a) + Chars(b)
  {
  }

  /** The span is replaced by its fragment, and the text around it stays. */
  lemma OneSpan(a: string, source: string, m: Match, b: string)
    requires NUL !in a && NUL !in b && Chars(source) == Source(m)
    ensures Matches(Chars(a + source + b), 0, [Span(a, m, b)])
    ensures Slacked(a + source + b, [Span(a, m, b)]) == a + Flat(Fragment(m)) + b
  {
    var ts, f := Chars(a) + ([Ph(0)] + Chars(b)), Fragment(m);
    SpanParts(a, m, b);
    CharsCat(a, source);
    CharsCat(a + source, b);
    Regroup(Chars(a), Chars(source), Chars(b));
    OnePass(Chars(a + source + b), Span(a, m, b));
    FlatCat(Chars(a), [Ph(0)] + Chars(b));
    FlatChars(a);
    FlatPh(0, Chars(b));
    FlatChars(b);
    Filled(a, b, Flat(f));
    assert FlatAll([f])[0] == Flat(f);
    assert RestoreFrom(Flat(ts), [Flat(f)], 1) == RestoreFrom(Replace(Flat(ts), Key(0), Flat(f)), [Flat(f)], 0);
  }

  lemma Filled(a: string, b: string, fill: string)
    requires NUL !in a && NUL !in b
    ensures Replace(a + (Bar(Tag(0)) + b), Key(0), fill) == a + fill + b
  {
    hide Replace, Tag;
    NothingLeft(fill);
    SkipPlain(a, Bar(Tag(0)) + b, Key(0), fill);
    AtSame(Tag(0), b, fill);
    SkipPlain(b, "", Key(0), fill);
    assert b + "" == b && a + (fill + b) == a + fill + b;
  }

  lemma NothingLeft(fill: string)
    ensures Replace("", Key(0), fill) == ""
  {
  }

  lemma FlatThree(a: string, s: string, b: string)
    ensures Flat(Chars(a) + Chars(s) + Chars(b)) == a + s + b
    ensures Chars(a) + Chars(s) + Chars(b) == Chars(a + s + b)
  {
    CharsCat(a, s);
    CharsCat(a + s, b);
    FlatChars(a + s + b);
  }

  lemma FlatTwo(a: string, s: string)
    ensures Flat(Chars(a) + Chars(s)) == a + s && Chars(a) + Chars(s) == Chars(a + s)
  {
    CharsCat(a, s);
    FlatChars(a + s);
  }

  lemma {:induction false} RStripChars(s: string, cs: set<char>)
    ensures RStrip(Chars(s), cs) == Chars(PyStrings.RTrim(s, cs))
    decreases |s|
  {
    if s != "" {
      assert Chars(s)[..|s| - 1] == Chars(s[..|s| - 1]);
      RStripChars(s[..|s| - 1], cs);
    }
  }

  /** Bold, italic, struck and code spans, and headings: the marks change, the text within stays. */
  lemma MarksChange(a: string, x: string, b: string)
    requires NUL !in a && NUL !in b
    ensures Slacked(a + ("**" + x + "**") + b, [Span(a, Bold(Chars(x)), b)]) == a + ("*" + x + "*") + b
    ensures Slacked(a + ("*" + x + "*") + b, [Span(a, Italic(Chars(x)), b)]) == a + ("_" + x + "_") + b
    ensures Slacked(a + ("~~" + x + "~~") + b, [Span(a, Strike(Chars(x)), b)]) == a + ("~" + x + "~") + b
    ensures Slacked(a + ("`" + x + "`") + b, [Span(a, Code(Chars(x)), b)]) == a + ("`" + x + "`") + b
  {
    hide Slacked, Flat, Span;
    FlatThree("**", x, "**");
    FlatThree("*", x, "*");
    FlatThree("_", x, "_");
    FlatThree("~~", x, "~~");
    FlatThree("~", x, "~");
    FlatThree("`", x, "`");
    OneSpan(a, "**" + x + "**", Bold(Chars(x)), b);
    OneSpan(a, "*" + x + "*", Italic(Chars(x)), b);
    OneSpan(a, "~~" + x + "~~", Strike(Chars(x)), b);
    OneSpan(a, "`" + x + "`", Code(Chars(x)), b);
  }

  /** A heading becomes bold, a list item gets a bullet, a number stays, and so does the quote mark. */
  lemma LinesChange(a: string, hashes: string, mark: char, number: string, x: string, b: string)
    requires NUL !in a && NUL !in b
    ensures Slacked(a + (hashes + " " + x) + b, [Span(a, Header(hashes, Chars(x)), b)]) == a + ("*" + x + "*") + b
    ensures Slacked(a + ([mark] + " " + x) + b, [Span(a, Bullet(mark, Chars(x)), b)]) == a + ("• " + x) + b
    ensures Slacked(a + (number + ". " + x) + b, [Span(a, Numbered(number, Chars(x)), b)]) ==
            a + (number + ". " + x) + b
    ensures Slacked(a + "> " + b, [Span(a, Quote, b)]) == a + "> " + b
  {
    hide Slacked, Flat, Span;
    FlatThree(hashes, " ", x);
    FlatThree("*", x, "*");
    FlatThree([mark], " ", x);
    FlatTwo("• ", x);
    FlatThree(number, ". ", x);
    FlatChars("> ");
    assert Chars([mark]) == [Ch(mark)];
    OneSpan(a, hashes + " " + x, Header(hashes, Chars(x)), b);
    OneSpan(a, [mark] + " " + x, Bullet(mark, Chars(x)), b);
    OneSpan(a, number + ". " + x, Numbered(number, Chars(x)), b);
    OneSpan(a, "> ", Quote, b);
  }

  /** A link is turned round, a URL stays, and a rule becomes a line of 32 dashes. */
  lemma LinksChange(a: string, caption: string, target: string, secure: bool, rest: string, marks: string, b: string)
    requires NUL !in a && NUL !in b
    ensures Slacked(a + ("[" + caption + "](" + target + ")") + b, [Span(a, Link(Chars(caption), Chars(target)), b)]) ==
            a + ("<" + target + "|" + caption + ">") + b
    ensures var url := (if secure then "https://" else "http://") + rest;
            Slacked(a + url + b, [Span(a, Url(secure, Chars(rest)), b)]) == a + url + b
    ensures Slacked(a + marks + b, [Span(a, Rule(marks), b)]) == a + "────────────────────────────────" + b
  {
    hide Slacked, Flat, Span;
    FlatFive("[", caption, "](", target, ")");
    FlatFive("<", target, "|", caption, ">");
    FlatTwo(Scheme(secure), rest);
    FlatChars("────────────────────────────────");
    assert seq(32, _ => '─') == "────────────────────────────────";
    OneSpan(a, "[" + caption + "](" + target + ")", Link(Chars(caption), Chars(target)), b);
    OneSpan(a, Scheme(secure) + rest, Url(secure, Chars(rest)), b);
    OneSpan(a, marks, Rule(marks), b);
  }

  lemma FlatFive(a: string, s: string, b: string, t: string, c: string)
    ensures Chars(a) + Chars(s) + Chars(b) + Chars(t) + Chars(c) == Chars(a + s + b + t + c)
    ensures Flat(Chars(a) + Chars(s) + Chars(b) + Chars(t) + Chars(c)) == a + s + b + t + c
  {
    CharsCat(a, s);
    CharsCat(a + s, b);
    CharsCat(a + s + b, t);
    CharsCat(a + s + b + t, c);
    FlatChars(a + s + b + t + c);
  }

  /** A fenced block loses its language and the white space at its end. */
  lemma FenceChanges(a: string, lang: string, x: string, b: string)
    requires NUL !in a && NUL !in b
    ensures Slacked(a + ("```" + lang + x + "```") + b, [Span(a, Fence(lang, Chars(x)), b)]) ==
            a + ("```" + PyStrings.RTrim(x, PyStrings.WHITE) + "\n```") + b
  {
    hide Slacked, Flat, Span;
    FlatFive("```", lang, x, "```", "");
    assert Chars("") == [] && "```" + lang + x + "```" + "" == "```" + lang + x + "```";
    RStripChars(x, PyStrings.WHITE);
    FlatThree("```", PyStrings.RTrim(x, PyStrings.WHITE), "\n```");
    OneSpan(a, "```" + lang + x + "```", Fence(lang, Chars(x)), b);
  }
}
