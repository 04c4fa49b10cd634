/** review_agent/core/storage.py: the findings file, one JSON object a line.

    The file is its text, "" while it does not exist, and a finding is its JSON text. */
module Annotations {
  import opened PyStrings

  /** JSON text of an object. */
  predicate Object(row: string) {
    row != "" && row[0] == '{' && row[|row| - 1] == '}'
  }

  ghost predicate AllObjects(rows: seq<string>) {
    forall i :: 0 <= i < |rows| ==> Object(rows[i])
  }

  /** The lines that are not blank, stripped. */
  function Kept(ls: seq<string>): seq<string> {
    if ls == [] then []
    else (if Strip(ls[0], WHITE) == "" then [] else [Strip(ls[0], WHITE)]) + Kept(ls[1..])
  }

  /** What is read from the file. */
  function Rows(text: string): seq<string> { Kept(SplitLines(text)) }

  lemma KeptStep(ls: seq<string>, i: nat)
    requires i < |ls|
    ensures var raw := Strip(ls[i], WHITE);
            Kept(ls[i..]) == (if raw == "" then [] else [raw]) + Kept(ls[i + 1..])
  {
    hide Strip;
    assert ls[i..][1..] == ls[i + 1..];
  }

  lemma KeptNone()
    ensures Kept([]) == []
  {
  }

  /** The rows with this id patched. The id of a row, and a row with new fields, are texts of JSON. */
  function Patched(rows: seq<string>, idOf: string -> string, id: string, patch: string -> string): (r: seq<string>)
    ensures |r| == |rows|
    ensures forall i :: 0 <= i < |r| ==> r[i] == if idOf(rows[i]) == id then patch(rows[i]) else rows[i]
  {
    seq(|rows|, i requires 0 <= i < |rows| => if idOf(rows[i]) == id then patch(rows[i]) else rows[i])
  }

  class AnnotationsFile {
    var text: string

    constructor ()
      ensures text == ""
    {
      text := "";
    }

    /** `append_finding`. */
    method Append(row: string)
      modifies this
      ensures text == old(text) + row + "\n"
    {
      text := text + row + "\n";
    }

    /** `load_findings`. */
    method Load() returns (out: seq<string>)
      ensures out == Rows(text)
    {
      hide Kept, Strip, SplitLines, AllLines;
      out := [];
      var lines := SplitLines(text);
      for i := 0 to |lines|
        invariant out + Kept(lines[i..]) == Kept(lines)
      {
        KeptStep(lines, i);
        var raw := Strip(lines[i], WHITE);
        if raw != "" {
          assert out + ([raw] + Kept(lines[i + 1..])) == (out + [raw]) + Kept(lines[i + 1..]);
          out := out + [raw];
        }
      }
      assert lines[|lines|..] == [] && out + [] == out;
      KeptNone();
    }

    /** How `update_finding_status` writes the file back. */
    method Rewrite(rows: seq<string>)
      modifies this
      ensures text == Join(rows) + "\n"
    {
      text := Join(rows) + "\n";
    }

    /** `update_finding_status`: every row with the id is patched. */
    method UpdateStatus(idOf: string -> string, id: string, patch: string -> string)
      modifies this
      ensures text == Join(Patched(Rows(old(text)), idOf, id, patch)) + "\n"
    {
      var rows := Load();
      ghost var was := rows;
      for i := 0 to |rows|
        invariant |rows| == |was| && text == old(text)
        invariant forall k :: 0 <= k < i ==> rows[k] == Patched(was, idOf, id, patch)[k]
        invariant forall k :: i <= k < |rows| ==> rows[k] == was[k]
      {
        if idOf(rows[i]) == id {
          rows := rows[i := patch(rows[i])];
        }
      }
      assert rows == Patched(was, idOf, id, patch);
      Rewrite(rows);
    }
  }

  /** The file after these findings were appended. */
  function AppendedAll(rows: seq<string>): string {
    if rows == [] then "" else AppendedAll(rows[..|rows| - 1]) + rows[|rows| - 1] + "\n"
  }

  lemma {:induction false} AppendedIsJoined(rows: seq<string>)
    requires rows != []
    ensures AppendedAll(rows) == Join(rows) + "\n"
  {
    var front, last := rows[..|rows| - 1], rows[|rows| - 1];
    if front == [] {
      assert "" + last + "\n" == last + "\n";
    } else {
      AppendedIsJoined(front);
      JoinSnoc(front, last);
      assert rows == front + [last];
    }
  }

  lemma StripObject(row: string)
    requires Object(row)
    ensures Strip(row, WHITE) == row
  {
  }

  lemma {:induction false} ObjectsKept(rows: seq<string>)
    requires AllObjects(rows)
    ensures Kept(rows) == rows
  {
    if rows != [] {
      StripObject(rows[0]);
      ObjectsKept(rows[1..]);
      assert rows == [rows[0]] + rows[1..];
    }
  }

  lemma {:induction false} LTrimMembers(s: string, cs: set<char>, c: char)
    requires c in LTrim(s, cs)
    ensures c in s
  {
    if s != "" && s[0] in cs {
      LTrimMembers(s[1..], cs, c);
    }
  }

  lemma StripOneLine(s: string, cs: set<char>)
    requires OneLine(s)
    ensures OneLine(Strip(s, cs))
  {
    forall c | c in Strip(s, cs) ensures c !in BREAKS {
      LTrimMembers(RTrim(s, cs), cs, c);
      assert c in s;
    }
  }

  lemma {:induction false} KeptOneLines(ls: seq<string>)
    requires AllLines(ls)
    ensures AllLines(Kept(ls))
  {
    if ls != [] {
      KeptOneLines(ls[1..]);
      StripOneLine(ls[0], WHITE);
    }
  }

  /** Findings written in one go are read back exactly when none holds a character at which
      `splitlines` cuts. JSON escapes those below U+0020, but not U+0085, U+2028 and U+2029. */
  lemma RewriteRoundTripIff(rows: seq<string>)
    requires AllObjects(rows)
    ensures Rows(Join(rows) + "\n") == rows <==> AllLines(rows)
  {
    if rows == [] {
      FirstLine("", "");
      assert Join([]) + "\n" == "" + "\n" + "";
      assert [""] + SplitLines("") == [""] && [""][1..] == [];
    } else if AllLines(rows) {
      SplitJoined(rows);
      ObjectsKept(rows);
    } else {
      KeptOneLines(SplitLines(Join(rows) + "\n"));
    }
  }

  /** So are findings appended one by one. */
  lemma AppendRoundTripIff(rows: seq<string>)
    requires AllObjects(rows)
    ensures Rows(AppendedAll(rows)) == rows <==> AllLines(rows)
  {
    if rows != [] {
      AppendedIsJoined(rows);
      RewriteRoundTripIff(rows);
    }
  }

  // ── any sequence of edits ───────────────────────────────

  datatype Edit = Append(row: string) | Update(id: string, patch: string -> string)

  /** The file after an edit. */
  function FileAfter(text: string, e: Edit, idOf: string -> string): string {
    match e
    case Append(row) => text + row + "\n"
    case Update(id, patch) => Join(Patched(Rows(text), idOf, id, patch)) + "\n"
  }

  /** What the edit means for the list of findings. */
  function ListAfter(rows: seq<string>, e: Edit, idOf: string -> string): seq<string> {
    match e
    case Append(row) => rows + [row]
    case Update(id, patch) => Patched(rows, idOf, id, patch)
  }

  /** New findings and patched ones are objects. */
  ghost predicate KeepsObjects(e: Edit) {
    match e
    case Append(row) => Object(row)
    case Update(_, patch) => forall row :: Object(row) ==> Object(patch(row))
  }

  /** Empty, or closed by a line feed. */
  predicate Closed(text: string) { text == "" || text[|text| - 1] == '\n' }

  lemma {:induction false} KeptCat(a: seq<string>, b: seq<string>)
    ensures Kept(a + b) == Kept(a) + Kept(b)
  {
    if a == [] {
      assert a + b == b;
    } else {
      assert (a + b)[0] == a[0] && (a + b)[1..] == a[1..] + b;
      KeptCat(a[1..], b);
    }
  }

  /** What is appended to a closed file is read after what was there. */
  lemma AppendReads(text: string, row: string)
    requires Closed(text) && Object(row) && AllLines(Rows(text))
    ensures Rows(text + row + "\n") == Rows(text) + [row] <==> AllLines(Rows(text) + [row])
  {
    hide Rows, AllLines, OneLine, Object;
    var rows, added := Rows(text), Rows(row + "\n");
    assert text + row + "\n" == text + (row + "\n");
    RowsCat(text, row + "\n");
    OneRowIff(row);
    LinesSnoc(rows, row);
    assert (rows + added)[|rows|..] == added && (rows + [row])[|rows|..] == [row];
  }

  lemma RowsCat(text: string, more: string)
    requires Closed(text)
    ensures Rows(text + more) == Rows(text) + Rows(more)
  {
    hide Kept, SplitLines, AllLines;
    SplitCat(text, more);
    KeptCat(SplitLines(text), SplitLines(more));
  }

  lemma LinesSnoc(rows: seq<string>, row: string)
    ensures AllLines(rows + [row]) <==> AllLines(rows) && OneLine(row)
  {
    hide OneLine;
    assert (rows + [row])[|rows|] == row;
    assert forall i :: 0 <= i < |rows| ==> (rows + [row])[i] == rows[i];
  }

  lemma OneRowIff(row: string)
    requires Object(row)
    ensures Rows(row + "\n") == [row] <==> OneLine(row)
  {
    hide Rows;
    RewriteRoundTripIff([row]);
    assert Join([row]) == row && [row][0] == row;
  }

  /** One edit: the file then reads as the list says exactly when all rows of that list are on one
      line each. */
  lemma EditReadsIff(text: string, rows: seq<string>, e: Edit, idOf: string -> string)
    requires Closed(text) && Rows(text) == rows && AllObjects(rows) && AllLines(rows) && KeepsObjects(e)
    ensures Closed(FileAfter(text, e, idOf)) && AllObjects(ListAfter(rows, e, idOf))
    ensures Rows(FileAfter(text, e, idOf)) == ListAfter(rows, e, idOf) <==> AllLines(ListAfter(rows, e, idOf))
  {
    match e
    case Append(row) => AppendReads(text, row);
    case Update(id, patch) => RewriteRoundTripIff(Patched(rows, idOf, id, patch));
  }

  /** At the start and after every edit the file reads as the list says. */
  predicate AlwaysReads(text: string, rows: seq<string>, es: seq<Edit>, idOf: string -> string)
    decreases |es|
  {
    && Rows(text) == rows
    && (es == [] || AlwaysReads(FileAfter(text, es[0], idOf), ListAfter(rows, es[0], idOf), es[1..], idOf))
  }

  ghost predicate AlwaysOneLineEach(rows: seq<string>, es: seq<Edit>, idOf: string -> string)
    decreases |es|
  {
    AllLines(rows) && (es == [] || AlwaysOneLineEach(ListAfter(rows, es[0], idOf), es[1..], idOf))
  }

  /** Over any sequence of appends and status updates, each of which patches every row with its id, the
      file always reads as the list of findings exactly when no row ever holds such a character. */
  lemma {:induction false} EditsReadIff(text: string, rows: seq<string>, es: seq<Edit>, idOf: string -> string)
    requires Closed(text) && Rows(text) == rows && AllObjects(rows) && AllLines(rows)
    requires forall i :: 0 <= i < |es| ==> KeepsObjects(es[i])
    ensures AlwaysReads(text, rows, es, idOf) <==> AlwaysOneLineEach(rows, es, idOf)
    decreases |es|
  {
    hide Rows, AllLines, AllObjects, FileAfter, ListAfter, KeepsObjects;
    if es != [] {
      EditReadsIff(text, rows, es[0], idOf);
      var next := ListAfter(rows, es[0], idOf);
      if AllLines(next) {
        EditsReadIff(FileAfter(text, es[0], idOf), next, es[1..], idOf);
      }
    }
  }

  /** So a status update leaves the file reading as before, with every row of the id replaced. */
  lemma UpdateRoundTrip(rows: seq<string>, idOf: string -> string, id: string, patch: string -> string)
    requires AllObjects(rows) && AllLines(rows) && KeepsObjects(Update(id, patch))
    requires AllLines(Patched(rows, idOf, id, patch))
    ensures var read := Rows(AppendedAll(rows));
            read == rows && Rows(Join(Patched(read, idOf, id, patch)) + "\n") == Patched(rows, idOf, id, patch)
  {
    AppendRoundTripIff(rows);
    RewriteRoundTripIff(Patched(rows, idOf, id, patch));
  }
}
