/** review_agent/slack/mrkdwn.py: protecting spans behind placeholders and restoring them.

    Between two passes the text is a list of tokens: characters of the input and placeholder keys.
    A key holds no character that delimits a match and no line break, so a match never cuts one.
    Which spans a regular expression matches is left open: a pass may cut the text into any pieces
    of its form. Restoring works on the strings, by replacing each key wherever it is found. */
module Mrkdwn {
  import PyStrings

  datatype Tok = Ch(c: char) | Ph(k: nat)

  type Text = seq<Tok>

  const NUL: char := '\0'

  // ── keys as strings ─────────────────────────────────────

  function Digit(d: nat): char
    requires d < 10
  {
    "0123456789"[d]
  }

  function Decimal(n: nat): string {
    if n < 10 then [Digit(n)] else Decimal(n / 10) + [Digit(n % 10)]
  }

  function Tag(k: nat): string { "PH" + Decimal(k) }

  function Bar(t: string): string { [NUL] + t + [NUL] }

  /** `f"\x00PH{counter}\x00"`. */
  function Key(k: nat): string { Bar(Tag(k)) }

  function Flat(ts: Text): string {
    if ts == [] then "" else (if ts[0].Ch? then [ts[0].c] else Key(ts[0].k)) + Flat(ts[1..])
  }

  function Chars(s: string): (ts: Text)
    ensures |ts| == |s| && forall i :: 0 <= i < |s| ==> ts[i] == Ch(s[i])
  {
    seq(|s|, i requires 0 <= i < |s| => Ch(s[i]))
  }

  ghost predicate NulFree(ts: Text) {
    forall i :: 0 <= i < |ts| && ts[i].Ch? ==> ts[i].c != NUL
  }

  // ── one pass ────────────────────────────────────────────

  /** `rstrip()`, with the characters it removes. */
  function RStrip(ts: Text, cs: set<char>): Text {
    if ts != [] && ts[|ts| - 1].Ch? && ts[|ts| - 1].c in cs then RStrip(ts[..|ts| - 1], cs) else ts
  }

  /** What the passes match, in the order of the passes. */
  datatype Match =
    | Fence(lang: string, fenced: Text)
    | Code(code: Text)
    | Link(caption: Text, target: Text)
    | Url(secure: bool, rest: Text)
    | Quote
    | Header(hashes: string, title: Text)
    | Rule(marks: string)
    | Bullet(mark: char, item: Text)
    | Numbered(number: string, entry: Text)
    | Bold(strong: Text)
    | Italic(slanted: Text)
    | Strike(struck: Text)

  function Scheme(secure: bool): string { if secure then "https://" else "http://" }

  /** The matched span. */
  function Source(m: Match): Text {
    match m
    case Fence(lang, body) => Chars("```") + Chars(lang) + body + Chars("```")
    case Code(body) => Chars("`") + body + Chars("`")
    case Link(caption, target) => Chars("[") + caption + Chars("](") + target + Chars(")")
    case Url(secure, rest) => Chars(Scheme(secure)) + rest
    case Quote => Chars("> ")
    case Header(hashes, title) => Chars(hashes) + Chars(" ") + title
    case Rule(marks) => Chars(marks)
    case Bullet(mark, item) => [Ch(mark)] + Chars(" ") + item
    case Numbered(number, entry) => Chars(number) + Chars(". ") + entry
    case Bold(body) => Chars("**") + body + Chars("**")
    case Italic(body) => Chars("*") + body + Chars("*")
    case Strike(body) => Chars("~~") + body + Chars("~~")
  }

  /** What is stored for it. */
  function Fragment(m: Match): Text {
    match m
    case Fence(_, body) => Chars("```") + RStrip(body, PyStrings.WHITE) + Chars("\n```")
    case Code(body) => Chars("`") + body + Chars("`")
    case Link(caption, target) => Chars("<") + target + Chars("|") + caption + Chars(">")
    case Url(secure, rest) => Chars(Scheme(secure)) + rest
    case Quote => Chars("> ")
    case Header(_, title) => Chars("*") + title + Chars("*")
    case Rule(_) => Chars(seq(32, _ => '─'))
    case Bullet(_, item) => Chars("• ") + item
    case Numbered(number, entry) => Chars(number) + Chars(". ") + entry
    case Bold(body) => Chars("*") + body + Chars("*")
    case Italic(body) => Chars("_") + body + Chars("_")
    case Strike(body) => Chars("~") + body + Chars("~")
  }

  datatype Piece = Keep(kept: Text) | Hit(m: Match)

  function Before(ps: seq<Piece>): Text {
    if ps == [] then [] else (if ps[0].Keep? then ps[0].kept else Source(ps[0].m)) + Before(ps[1..])
  }

  /** The text after a pass whose first match gets key n. */
  function After(ps: seq<Piece>, n: nat): Text {
    if ps == [] then []
    else if ps[0].Keep? then ps[0].kept + After(ps[1..], n)
    else [Ph(n)] + After(ps[1..], n + 1)
  }

  function Stored(ps: seq<Piece>): seq<Text> {
    if ps == [] then [] else (if ps[0].Keep? then [] else [Fragment(ps[0].m)]) + Stored(ps[1..])
  }

  // ── str.replace and the restore loop ────────────────────

  /** Python's `s.replace(key, fill)` for a non-empty key. */
  function Replace(s: string, key: string, fill: string): string
    requires key != ""
    decreases |s|
  {
    if key <= s then fill + Replace(s[|key|..], key, fill)
    else if s == "" then "" else [s[0]] + Replace(s[1..], key, fill)
  }

  /** Keys n-1, ..., 0, the latest first. */
  function RestoreFrom(s: string, fragments: seq<string>, n: nat): string
    requires n <= |fragments|
    decreases n
  {
    if n == 0 then s else RestoreFrom(Replace(s, Key(n - 1), fragments[n - 1]), fragments, n - 1)
  }

  function FlatAll(fs: seq<Text>): (r: seq<string>)
    ensures |r| == |fs| && forall i :: 0 <= i < |fs| ==> r[i] == Flat(fs[i])
  {
    seq(|fs|, i requires 0 <= i < |fs| => Flat(fs[i]))
  }

  lemma Regroup<T>(a: seq<T>, b: seq<T>, c: seq<T>)
    ensures a + (b + c) == (a + b) + c
  {
  }

  class Converter {
    var text: Text
    var placeholders: seq<Text>

    constructor (input: string)
      ensures text == Chars(input) && placeholders == []
    {
      text, placeholders := Chars(input), [];
    }

    /** `_ph`: the counter is the number of placeholders so far. */
    method Protect(fragment: Text) returns (key: Tok)
      modifies this`placeholders
      ensures key == Ph(|old(placeholders)|) && placeholders == old(placeholders) + [fragment]
    {
      key := Ph(|placeholders|);
      placeholders := placeholders + [fragment];
    }

    /** One `re.sub`: every match, left to right, is put behind a placeholder. */
    method Pass(ps: seq<Piece>)
      requires text == Before(ps)
      modifies this
      ensures text == After(ps, |old(placeholders)|)
      ensures placeholders == old(placeholders) + Stored(ps)
    {
      var out: Text := [];
      for i := 0 to |ps|
        invariant out + After(ps[i..], |placeholders|) == After(ps, |old(placeholders)|)
        invariant placeholders + Stored(ps[i..]) == old(placeholders) + Stored(ps)
      {
        assert ps[i..][1..] == ps[i + 1..];
        ghost var n := |placeholders|;
        if ps[i].Keep? {
          Regroup(out, ps[i].kept, After(ps[i + 1..], n));
          assert [] + Stored(ps[i + 1..]) == Stored(ps[i + 1..]);
          out := out + ps[i].kept;
        } else {
          Regroup(out, [Ph(n)], After(ps[i + 1..], n + 1));
          Regroup(placeholders, [Fragment(ps[i].m)], Stored(ps[i + 1..]));
          var key := Protect(Fragment(ps[i].m));
          out := out + [key];
        }
      }
      text := out;
    }

    /** The restore loop, on strings. */
    method Restore() returns (s: string)
      ensures s == RestoreFrom(Flat(text), FlatAll(placeholders), |placeholders|)
    {
      var fragments := FlatAll(placeholders);
      s := Flat(text);
      var n := |fragments|;
      while n > 0
        invariant 0 <= n <= |fragments|
        invariant RestoreFrom(s, fragments, n) == RestoreFrom(Flat(text), fragments, |fragments|)
      {
        n := n - 1;
        s := Replace(s, Key(n), fragments[n]);
      }
    }
  }
}
