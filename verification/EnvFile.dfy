/** review_agent/secrets.py: the reader and the editor of the env file.

    A file is its text as `read_text` returns it, or None when it does not exist. */
module EnvFile {
  import opened Models
  import opened PyStrings

  // ── one line ────────────────────────────────────────────

  function FirstEq(s: string): (k: nat)
    ensures k <= |s| && '=' !in s[..k]
    ensures k < |s| ==> s[k] == '='
  {
    if s == "" || s[0] == '=' then 0 else 1 + FirstEq(s[1..])
  }

  /** Blank lines and comments hold no setting. */
  predicate Skipped(line: string) {
    var s := Strip(line, WHITE);
    s == "" || s[0] == '#'
  }

  /** `s.split("=", 1)[0].strip()` of a stripped line. */
  function NameOn(line: string): string {
    var s := Strip(line, WHITE);
    Strip(s[..FirstEq(s)], WHITE)
  }

  /** `v.strip().strip('"').strip("'")`. */
  function Cleaned(value: string): string {
    Strip(Strip(Strip(value, WHITE), {'"'}), {'\''})
  }

  /** The setting that the reader takes from a line. */
  function Parse(line: string): Option<(string, string)> {
    var s := Strip(line, WHITE);
    var k := FirstEq(s);
    if Skipped(line) || k == |s| then None else Some((NameOn(line), Cleaned(s[k + 1..])))
  }

  /** The lines that the editor takes for the key: unlike the reader's, they need no `=`. */
  predicate Named(line: string, key: string) {
    !Skipped(line) && NameOn(line) == key
  }

  // ── whole files ─────────────────────────────────────────

  function Parsed(ls: seq<string>): (ps: seq<Option<(string, string)>>)
    ensures |ps| == |ls| && forall i :: 0 <= i < |ls| ==> ps[i] == Parse(ls[i])
  {
    seq(|ls|, i requires 0 <= i < |ls| => Parse(ls[i]))
  }

  /** The dictionary after these settings: a later one replaces an earlier one. */
  function Learned(ps: seq<Option<(string, string)>>): map<string, string> {
    if ps == [] then map[]
    else
      var out, p := Learned(ps[..|ps| - 1]), ps[|ps| - 1];
      if p.Some? then out[p.value.0 := p.value.1] else out
  }

  function Settings(ls: seq<string>): map<string, string> { Learned(Parsed(ls)) }

  function Lines(text: Option<string>): (ls: seq<string>)
    ensures AllLines(ls)
  {
    if text.Some? then SplitLines(text.value) else []
  }

  function FirstNamed(ls: seq<string>, key: string): (r: Option<nat>)
    ensures r.Some? ==> r.value < |ls| && Named(ls[r.value], key)
    ensures forall i :: 0 <= i < (if r.Some? then r.value else |ls|) ==> !Named(ls[i], key)
  {
    if ls == [] then None
    else if Named(ls[0], key) then Some(0)
    else
      var r := FirstNamed(ls[1..], key);
      if r.Some? then Some(r.value + 1) else None
  }

  /** The first named line overwritten, or a line added at the end. */
  function Edited(ls: seq<string>, key: string, newLine: string): seq<string> {
    var r := FirstNamed(ls, key);
    if r.Some? then ls[r.value := newLine] else ls + [newLine]
  }

  function Entry(key: string, value: string): string { key + "=" + value }

  /** The text of the file after `upsert_env_value`. */
  function Upserted(text: Option<string>, key: string, value: string): string {
    RTrim(Join(Edited(Lines(text), key, Entry(key, value))), WHITE) + "\n"
  }

  class Env {
    var text: Option<string>

    /** `_read_env_file`. */
    method Read() returns (out: map<string, string>)
      ensures out == Settings(Lines(text))
    {
      out := map[];
      if text.None? {
        return;
      }
      var lines := SplitLines(text.value);
      for i := 0 to |lines|
        invariant out == Learned(Parsed(lines)[..i])
      {
        assert Parsed(lines)[..i + 1][..i] == Parsed(lines)[..i];
        var line := Strip(lines[i], WHITE);
        if line == "" || line[0] == '#' {
          continue;
        }
        var k := FirstEq(line);
        if k == |line| {
          continue;
        }
        out := out[Strip(line[..k], WHITE) := Cleaned(line[k + 1..])];
      }
      assert Parsed(lines)[..|lines|] == Parsed(lines);
    }

    /** `upsert_env_value`; the new text replaces the old one in one step. */
    method Upsert(key: string, value: string)
      modifies this
      ensures text == Some(Upserted(old(text), key, value))
    {
      var lines := Lines(text);
      var newLine := Entry(key, value);
      var replaced := false;
      var i := 0;
      while i < |lines| && !replaced
        invariant 0 <= i <= |lines|
        invariant !replaced ==> lines == Lines(old(text)) && forall j :: 0 <= j < i ==> !Named(lines[j], key)
        invariant replaced ==> lines == Edited(Lines(old(text)), key, newLine)
      {
        var s := Strip(lines[i], WHITE);
        if s != "" && s[0] != '#' && Strip(s[..FirstEq(s)], WHITE) == key {
          FirstNamedIs(lines, key, i);
          lines := lines[i := newLine];
          replaced := true;
        }
        i := i + 1;
      }
      if !replaced {
        lines := lines + [newLine];
      }
      text := Some(RTrim(Join(lines), WHITE) + "\n");
    }
  }

  // ── the new line ────────────────────────────────────────

  /** A key as it stands in a file: one line, stripped, not empty, no `=`, no comment. */
  ghost predicate GoodKey(key: string) {
    && OneLine(key)
    && key != "" && key[0] != '#' && key[0] !in WHITE && key[|key| - 1] !in WHITE
    && '=' !in key
  }

  lemma {:induction false} FirstEqAt(key: string, rest: string)
    requires '=' !in key
    ensures FirstEq(key + "=" + rest) == |key|
  {
    if key != "" {
      assert (key + "=" + rest)[1..] == key[1..] + "=" + rest;
      FirstEqAt(key[1..], rest);
    }
  }

  lemma StripEntry(key: string, value: string, cs: set<char>)
    requires key != "" && key[0] !in cs && '=' !in cs
    ensures Strip(Entry(key, value), cs) == key + "=" + RTrim(value, cs)
  {
    RTrimCat(key + "=", value, cs);
    assert (key + "=")[|key|] == '=';
    assert (key + "=") + "" == key + "=";
  }

  lemma StripIsRead(key: string)
    requires GoodKey(key)
    ensures Strip(key, WHITE) == key
  {
  }

  /** The new line gives the key its cleaned value. */
  lemma EntryParses(key: string, value: string)
    requires GoodKey(key)
    ensures Parse(Entry(key, value)) == Some((key, Cleaned(value)))
    ensures Named(Entry(key, value), key)
  {
    var v := RTrim(value, WHITE);
    var s := key + "=" + v;
    StripEntry(key, value, WHITE);
    FirstEqAt(key, v);
    assert s[..|key|] == key && s[|key| + 1..] == v;
    StripIsRead(key);
    RTrimTwice(value, WHITE);
  }

  /** A value that stripping leaves alone. */
  predicate Bare(v: string) {
    v == "" || (Plain(v[0]) && Plain(v[|v| - 1]))
  }

  predicate Plain(c: char) { c !in WHITE && c != '"' && c != '\'' }

  predicate Blank(s: string) { forall c :: c in s ==> c in WHITE }

  lemma Wrapped(a: string, q: string, v: string, b: string)
    requires Blank(a) && Blank(b) && Bare(v) && (q == "" || q == "\"" || q == "'")
    ensures Cleaned(a + (q + v + q) + b) == v
  {
    var s := q + v + q;
    assert '"' !in WHITE && '\'' !in WHITE;
    StripMeans(a, s, b, WHITE);
    if q == "\"" {
      StripMeans(q, v, q, {'"'});
    } else {
      assert "" + s + "" == s;
      StripMeans("", s, "", {'"'});
    }
    if q == "'" {
      StripMeans(q, v, q, {'\''});
    } else {
      assert "" + v + "" == v;
      StripMeans("", v, "", {'\''});
    }
  }

  /** With white space around key and value, and the value bare or in quotes of either kind, the line
      reads as key and value. */
  lemma QuotedReads(a: string, key: string, b: string, c: string, q: string, v: string, d: string)
    requires GoodKey(key) && Blank(a) && Blank(b) && Blank(c) && Blank(d) && Bare(v)
    requires q == "" || q == "\"" || q == "'"
    ensures Parse(a + key + b + "=" + c + (q + v + q) + d) == Some((key, v))
  {
    hide Strip, Cleaned, Parse, RTrim;
    var rest := c + (q + v + q);
    assert a + key + b + "=" + c + (q + v + q) + d == a + (key + b + "=" + rest) + d;
    StripSetting(a, key, b, rest, d);
    Wrapped(c, q, v, "");
    assert rest + "" == rest;
    Spaced(a + (key + b + "=" + rest) + d, key, b, rest);
  }

  lemma StripSetting(a: string, key: string, b: string, rest: string, d: string)
    requires GoodKey(key) && Blank(a) && Blank(d)
    ensures Strip(a + (key + b + "=" + rest) + d, WHITE) == key + b + "=" + RTrim(rest, WHITE)
  {
    var k, s := key + b + "=", key + b + "=" + rest;
    RTrimCat(k, rest, WHITE);
    assert k[|k| - 1] == '=' && RTrim(k, WHITE) == k && k + "" == k;
    var mid := RTrim(s, WHITE);
    assert mid == k + RTrim(rest, WHITE);
    RTrimCat(a + s, d, WHITE);
    RTrimAll(d, WHITE);
    RTrimCat(a, s, WHITE);
    LTrimCat(a, mid, WHITE);
  }

  lemma Spaced(line: string, key: string, b: string, rest: string)
    requires GoodKey(key) && Blank(b) && Strip(line, WHITE) == key + b + "=" + RTrim(rest, WHITE)
    ensures Parse(line) == Some((key, Cleaned(rest)))
  {
    hide RTrim, LTrim;
    var s, r := Strip(line, WHITE), RTrim(rest, WHITE);
    assert '=' !in WHITE && '=' !in key + b;
    FirstEqAt(key + b, r);
    assert s[..|key + b|] == key + b && s[|key + b| + 1..] == r;
    assert "" + key + b == key + b;
    StripMeans("", key, b, WHITE);
    RTrimTwice(rest, WHITE);
    assert s[0] == key[0];
  }

  /** Double quotes go first: within single ones they stay. */
  lemma QuotesWithinQuotes(key: string)
    requires GoodKey(key)
    ensures Parse(key + "=" + "'\"v\"'") == Some((key, "\"v\""))
    ensures Parse(key + "=" + "\"'v'\"") == Some((key, "v"))
  {
    hide Parse, Cleaned, Strip;
    EntryParses(key, "'\"v\"'");
    EntryParses(key, "\"'v'\"");
    CleanedQuotes();
  }

  lemma CleanedQuotes()
    ensures Cleaned("'\"v\"'") == "\"v\"" && Cleaned("\"'v'\"") == "v"
  {
    hide Strip;
    var x, y := "'\"v\"'", "\"'v'\"";
    assert '\'' !in WHITE && '"' !in WHITE;
    assert "" + x + "" == x && "" + y + "" == y;
    StripMeans("", x, "", WHITE);
    StripMeans("", x, "", {'"'});
    assert "'" + "\"v\"" + "'" == x;
    StripMeans("'", "\"v\"", "'", {'\''});
    StripMeans("", y, "", WHITE);
    assert "\"" + "'v'" + "\"" == y;
    StripMeans("\"", "'v'", "\"", {'"'});
    assert "'" + "v" + "'" == "'v'";
    StripMeans("'", "v", "'", {'\''});
  }

  /** Lines without a setting: blank ones, comments, and those without `=`. */
  lemma NoSetting(a: string, text: string)
    requires Blank(a)
    ensures Parse(a).None? && Parse(a + "#" + text).None?
    ensures '=' !in text ==> Parse(text).None?
  {
    assert a + "" + "" == a;
    StripMeans(a, "", "", WHITE);
    RTrimCat(a + "#", text, WHITE);
    assert (a + "#") + "" == a + "#" && (a + "#")[..|a|] == a;
    assert RTrim(a + "#", WHITE) == a + "#";
    var r := "#" + RTrim(text, WHITE);
    assert RTrim(a + "#" + text, WHITE) == a + r;
    LTrimCat(a, r, WHITE);
    if '=' !in text {
      NoEq(Strip(text, WHITE));
      StripPart(text);
    }
  }

  lemma {:induction false} NoEq(s: string)
    ensures '=' !in s ==> FirstEq(s) == |s|
  {
    if s != "" && s[0] != '=' {
      NoEq(s[1..]);
    }
  }

  lemma {:induction false} LTrimPart(s: string, c: char)
    requires c in LTrim(s, WHITE)
    ensures c in s
  {
    if s != "" && s[0] in WHITE {
      LTrimPart(s[1..], c);
    }
  }

  lemma StripPart(s: string)
    ensures '=' !in s ==> '=' !in Strip(s, WHITE)
  {
    if '=' in Strip(s, WHITE) {
      LTrimPart(RTrim(s, WHITE), '=');
    }
  }

  lemma EntryOneLine(key: string, value: string)
    requires OneLine(key) && OneLine(value)
    ensures OneLine(Entry(key, value))
  {
  }

  // ── trimming the file changes nothing that is read ──────

  lemma TrimmedLine(line: string, key: string)
    ensures Parse(RTrim(line, WHITE)) == Parse(line)
    ensures Named(RTrim(line, WHITE), key) <==> Named(line, key)
    ensures RTrim(line, WHITE) == "" ==> Skipped(line)
  {
    RTrimTwice(line, WHITE);
  }

  lemma {:induction false} LearnedPrefix(ps: seq<Option<(string, string)>>, n: nat)
    requires n <= |ps| && forall i :: n <= i < |ps| ==> ps[i].None?
    ensures Learned(ps) == Learned(ps[..n])
  {
    if n == |ps| {
      assert ps[..n] == ps;
    } else {
      LearnedPrefix(ps[..|ps| - 1], n);
      assert ps[..|ps| - 1][..n] == ps[..n];
    }
  }

  /** A line kept by the trimming reads as before; a line dropped held nothing. */
  lemma TrimmedAt(ls: seq<string>, j: nat, key: string)
    requires j < |ls|
    ensures var us := TrimEnd(ls, WHITE);
            if j < |us| then Parse(us[j]) == Parse(ls[j]) && (Named(us[j], key) <==> Named(ls[j], key))
            else Parse(ls[j]).None? && !Named(ls[j], key)
  {
    TrimmedLine(ls[j], key);
    var us := TrimEnd(ls, WHITE);
    assert j < |us| - 1 ==> us[j] == ls[j];
  }

  lemma TrimEndKeepsSettings(ls: seq<string>)
    ensures Settings(TrimEnd(ls, WHITE)) == Settings(ls)
  {
    var us := TrimEnd(ls, WHITE);
    forall i | 0 <= i < |ls| ensures Parsed(ls)[i] == if i < |us| then Parsed(us)[i] else None {
      TrimmedAt(ls, i, "");
    }
    LearnedPrefix(Parsed(ls), |us|);
    assert Parsed(ls)[..|us|] == Parsed(us);
  }

  lemma EditedHasEntry(ls: seq<string>, key: string, newLine: string)
    requires Named(newLine, key)
    ensures var es := Edited(ls, key, newLine);
            FirstNamed(es, key).Some? && es[FirstNamed(es, key).value] == newLine
  {
    var es := Edited(ls, key, newLine);
    var r := FirstNamed(ls, key);
    var i := if r.Some? then r.value else |ls|;
    assert es[i] == newLine && forall j :: 0 <= j < i ==> es[j] == ls[j];
    FirstNamedIs(es, key, i);
  }

  lemma FirstNamedIs(ls: seq<string>, key: string, i: nat)
    requires i < |ls| && Named(ls[i], key) && forall j :: 0 <= j < i ==> !Named(ls[j], key)
    ensures FirstNamed(ls, key) == Some(i)
  {
  }

  /** Trimming keeps the first named line where it is. */
  lemma FirstNamedTrimmed(ls: seq<string>, key: string)
    requires FirstNamed(ls, key).Some?
    ensures var i := FirstNamed(ls, key).value;
            i < |TrimEnd(ls, WHITE)| && FirstNamed(TrimEnd(ls, WHITE), key) == Some(i)
  {
    var us := TrimEnd(ls, WHITE);
    var i := FirstNamed(ls, key).value;
    TrimmedAt(ls, i, key);
    forall j | 0 <= j < i ensures !Named(us[j], key) {
      TrimmedAt(ls, j, key);
    }
    FirstNamedIs(us, key, i);
  }

  lemma EditedOneLines(ls: seq<string>, key: string, newLine: string)
    requires AllLines(ls) && OneLine(newLine)
    ensures AllLines(Edited(ls, key, newLine))
  {
  }

  /** Reading the edited file back gives its edited lines, trimmed at the end. */
  lemma UpsertedLines(text: Option<string>, key: string, value: string)
    requires GoodKey(key) && OneLine(value)
    ensures Lines(Some(Upserted(text, key, value))) == TrimEnd(Edited(Lines(text), key, Entry(key, value)), WHITE)
  {
    var e := Entry(key, value);
    var es := Edited(Lines(text), key, e);
    EntryParses(key, value);
    EntryOneLine(key, value);
    EditedHasEntry(Lines(text), key, e);
    EditedOneLines(Lines(text), key, e);
    RTrimJoin(es, WHITE);
    TrimEndOneLines(es, WHITE);
    FirstNamedTrimmed(es, key);
    SplitJoined(TrimEnd(es, WHITE));
  }

  // ── main results ────────────────────────────────────────

  predicate Sets(p: Option<(string, string)>, key: string) { p.Some? && p.value.0 == key }

  ghost predicate SetAfter(ps: seq<Option<(string, string)>>, i: nat, key: string) {
    exists j :: i < j < |ps| && Sets(ps[j], key)
  }

  /** After the line that the editor overwrites, which is the first one for the key, there is
      another one from which the reader, which lets the last one win, takes the value. */
  ghost predicate Overruled(ls: seq<string>, key: string) {
    FirstNamed(ls, key).Some? && SetAfter(Parsed(ls), FirstNamed(ls, key).value, key)
  }

  lemma {:induction false} Overwritten(ps: seq<Option<(string, string)>>, i: nat, key: string, v: string)
    requires i < |ps| && (ps[i].None? || Sets(ps[i], key))
    ensures Learned(ps[i := Some((key, v))]) ==
            if SetAfter(ps, i, key) then Learned(ps) else Learned(ps)[key := v]
  {
    var n := |ps| - 1;
    var qs := ps[i := Some((key, v))];
    if i == n {
      assert qs[..n] == ps[..n];
    } else {
      assert qs[..n] == ps[..n][i := Some((key, v))];
      Overwritten(ps[..n], i, key, v);
      SetAfterLast(ps, i, key);
    }
  }

  lemma SetAfterLast(ps: seq<Option<(string, string)>>, i: nat, key: string)
    requires i < |ps| - 1
    ensures SetAfter(ps, i, key) <==> SetAfter(ps[..|ps| - 1], i, key) || Sets(ps[|ps| - 1], key)
  {
    var n := |ps| - 1;
    if SetAfter(ps, i, key) && !Sets(ps[n], key) {
      var j :| i < j < |ps| && Sets(ps[j], key);
      assert Sets(ps[..n][j], key);
    }
  }

  lemma NamedParse(line: string, key: string)
    requires Named(line, key)
    ensures Parse(line).None? || Sets(Parse(line), key)
  {
  }

  lemma ParsedEdited(ls: seq<string>, key: string, e: string)
    ensures var r := FirstNamed(ls, key);
            Parsed(Edited(ls, key, e)) ==
            if r.Some? then Parsed(ls)[r.value := Parse(e)] else Parsed(ls) + [Parse(e)]
  {
  }

  /** After an edit the reader finds the cleaned value under the key and everything else as it
      was; unless a later line overrules the edit, when it finds everything as it was. */
  lemma ReadAfterUpsert(text: Option<string>, key: string, value: string)
    requires GoodKey(key) && OneLine(value)
    ensures var was := Settings(Lines(text));
            Settings(Lines(Some(Upserted(text, key, value)))) ==
            if Overruled(Lines(text), key) then was else was[key := Cleaned(value)]
  {
    var ls, e := Lines(text), Entry(key, value);
    var ps := Parsed(ls);
    EntryParses(key, value);
    UpsertedLines(text, key, value);
    TrimEndKeepsSettings(Edited(ls, key, e));
    ParsedEdited(ls, key, e);
    if FirstNamed(ls, key).Some? {
      var i := FirstNamed(ls, key).value;
      NamedParse(ls[i], key);
      Overwritten(ps, i, key, Cleaned(value));
    } else {
      assert (ps + [Parse(e)])[..|ps|] == ps;
    }
  }

  /** An edit that changes a setting takes effect exactly when no later line overrules it. */
  lemma UpsertTakesEffectIff(text: Option<string>, key: string, value: string)
    requires GoodKey(key) && OneLine(value)
    requires key !in Settings(Lines(text)) || Settings(Lines(text))[key] != Cleaned(value)
    ensures var now := Settings(Lines(Some(Upserted(text, key, value))));
            key in now && now[key] == Cleaned(value) <==> !Overruled(Lines(text), key)
  {
    ReadAfterUpsert(text, key, value);
  }

  lemma SetsIsNamed(line: string, key: string)
    ensures Sets(Parse(line), key) ==> Named(line, key)
  {
  }

  /** With at most one line for the key, as the editor sees lines, nothing is overruled. */
  lemma OneLineEach(text: Option<string>, key: string)
    requires forall i, j :: 0 <= i < j < |Lines(text)| && Named(Lines(text)[i], key) ==> !Named(Lines(text)[j], key)
    ensures !Overruled(Lines(text), key)
  {
    var ls := Lines(text);
    forall j | 0 <= j < |ls| ensures Sets(Parsed(ls)[j], key) ==> Named(ls[j], key) {
      SetsIsNamed(ls[j], key);
    }
  }

  lemma EditTwice(ls: seq<string>, key: string, e: string, i: nat)
    requires FirstNamed(ls, key) == Some(i)
    ensures Edited(ls, key, e) == ls[i := e]
  {
  }

  /** Repeating an edit leaves the very same file. */
  lemma UpsertTwice(text: Option<string>, key: string, value: string)
    requires GoodKey(key) && OneLine(value)
    ensures var once := Upserted(text, key, value);
            Upserted(Some(once), key, value) == once
  {
    var e := Entry(key, value);
    var es := Edited(Lines(text), key, e);
    EntryParses(key, value);
    EditedHasEntry(Lines(text), key, e);
    UpsertedLines(text, key, value);
    FirstNamedTrimmed(es, key);
    var i := FirstNamed(es, key).value;
    EditTwice(TrimEnd(es, WHITE), key, e, i);
    TrimEndAgain(es, i, WHITE);
    RTrimJoin(es, WHITE);
    RTrimJoin(TrimEnd(es, WHITE)[i := e], WHITE);
  }

  lemma TwoLines(u: string, w: string)
    requires OneLine(u) && OneLine(w)
    ensures SplitLines(u + "\n" + w + "\n") == [u, w]
  {
    SplitJoined([u, w]);
    assert Join([u, w]) + "\n" == u + "\n" + w + "\n";
  }

  /** The round trip fails on a file with one setting of the key, below a line that is just the
      key: the edit turns that line into a setting, and the stale one overrules it. */
  lemma BareNameExample(key: string, stale: string, value: string)
    requires GoodKey(key) && OneLine(stale) && OneLine(value)
    ensures var text := Some(key + "\n" + Entry(key, stale) + "\n");
            && Settings(Lines(text)) == map[key := Cleaned(stale)]
            && Settings(Lines(Some(Upserted(text, key, value)))) == map[key := Cleaned(stale)]
  {
    var e := Entry(key, stale);
    var text := Some(key + "\n" + e + "\n");
    EntryOneLine(key, stale);
    TwoLines(key, e);
    EntryParses(key, stale);
    StripIsRead(key);
    BareName(key);
    var ls := Lines(text);
    assert ls == [key, e];
    FirstNamedIs(ls, key, 0);
    assert Sets(Parsed(ls)[1], key);
    assert Parsed(ls)[..1][..0] == [];
    assert Learned(Parsed(ls)[..1]) == map[];
    ReadAfterUpsert(text, key, value);
  }

  lemma BareName(key: string)
    requires GoodKey(key)
    ensures Named(key, key) && Parse(key).None?
  {
    StripIsRead(key);
    var k := FirstEq(key);
    assert k == |key|;
    assert key[..k] == key;
  }
}
