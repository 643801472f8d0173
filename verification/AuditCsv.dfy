/**
 The audit ledger as CSV, and a reader of quoted CSV (section 2 of RFC 4180) that takes
 every export back to exactly the fields that were written.
 */
module AuditCsv {
  import opened Wrappers

  const HEADER: string :=
    "occurredAt,action,severity,actorType,actorLabel,actorMemberId,actorAvatarUrl,targetType,targetId,targetLabel,targetAvatarUrl,detail"

  predicate IsBreak(c: char) {
    c == '\r' || c == '\n'
  }

  /** Each run of line breaks becomes one space. */
  function Spaced(text: string): string {
    if text == "" then ""
    else if !IsBreak(text[0]) then [text[0]] + Spaced(text[1..])
    else if |text| > 1 && IsBreak(text[1]) then Spaced(text[1..])
    else " " + Spaced(text[1..])
  }

  function Doubled(text: string): string {
    if text == "" then "" else (if text[0] == '"' then "\"\"" else [text[0]]) + Doubled(text[1..])
  }

  predicate LooksLikeFormula(text: string) {
    text != "" && text[0] in {'=', '+', '-', '@', '\t'}
  }

  function Neutral(text: string): string {
    if LooksLikeFormula(text) then "'" + text else text
  }

  function EscapeCsvField(value: Option<string>): string {
    "\"" + Neutral(Doubled(Spaced(if value.Some? then value.value else ""))) + "\""
  }

  /** The text a spreadsheet ends up holding. */
  function Exported(value: Option<string>): string {
    Neutral(Spaced(if value.Some? then value.value else ""))
  }

  function Join(parts: seq<string>, separator: string): string {
    if parts == [] then ""
    else if |parts| == 1 then parts[0]
    else parts[0] + separator + Join(parts[1..], separator)
  }

  function Escaped(row: seq<Option<string>>): seq<string> {
    if row == [] then [] else [EscapeCsvField(row[0])] + Escaped(row[1..])
  }

  function Line(row: seq<Option<string>>): string {
    Join(Escaped(row), ",")
  }

  function Lines(rows: seq<seq<Option<string>>>): seq<string> {
    if rows == [] then [] else [Line(rows[0])] + Lines(rows[1..])
  }

  /** The lines are pushed one by one and joined at the end. */
  method ExportCsv(rows: seq<seq<Option<string>>>) returns (csv: string)
    requires forall i | 0 <= i < |rows| :: rows[i] != []
    ensures Read(csv) == Some(Table(rows))
    ensures HEADER <= csv
  {
    var lines := [HEADER];
    for n := 0 to |rows|
      invariant lines + Lines(rows[n..]) == [HEADER] + Lines(rows)
    {
      assert rows[n..][1..] == rows[n + 1..];
      assert (lines + [Line(rows[n])]) + Lines(rows[n + 1..]) == lines + ([Line(rows[n])] + Lines(rows[n + 1..]));
      lines := lines + [Line(rows[n])];
    }
    assert lines + [] == lines;
    csv := Join(lines, "\n");
    JoinedLines(HEADER, rows);
    RoundTrip(rows);
  }

  // ── The reader ──────────────────────────────────────────────────────────────

  /** The rest of a quoted field, opening quote already read: its text, and what follows the closing quote. */
  function ReadQuoted(s: string): (r: Option<(string, string)>)
    ensures r.Some? ==> |r.value.1| < |s|
    decreases |s|
  {
    if s == "" then None
    else if s[0] != '"' then Prefixed(s[0], ReadQuoted(s[1..]))
    else if |s| > 1 && s[1] == '"' then Prefixed('"', ReadQuoted(s[2..]))
    else Some(("", s[1..]))
  }

  function Prefixed(c: char, r: Option<(string, string)>): Option<(string, string)> {
    if r.None? then None else Some(([c] + r.value.0, r.value.1))
  }

  /** The quoted fields of one line, and what follows it. */
  function ReadFields(s: string): (r: Option<(seq<string>, string)>)
    ensures r.Some? ==> |r.value.1| < |s|
    decreases |s|
  {
    if s == "" || s[0] != '"' then None
    else
      var field := ReadQuoted(s[1..]);
      if field.None? then None
      else if field.value.1 == "" || field.value.1[0] == '\n' then Some(([field.value.0], field.value.1))
      else if field.value.1[0] != ',' then None
      else
        var more := ReadFields(field.value.1[1..]);
        if more.None? then None else Some(([field.value.0] + more.value.0, more.value.1))
  }

  /** Lines, each introduced by a line feed. */
  function ReadLines(s: string): Option<seq<seq<string>>>
    decreases |s|
  {
    if s == "" then Some([])
    else if s[0] != '\n' then None
    else
      var fields := ReadFields(s[1..]);
      if fields.None? then None
      else
        var more := ReadLines(fields.value.1);
        if more.None? then None else Some([fields.value.0] + more.value)
  }

  function Read(csv: string): Option<seq<seq<string>>> {
    if HEADER <= csv then ReadLines(csv[|HEADER|..]) else None
  }

  function Fields(row: seq<Option<string>>): seq<string> {
    if row == [] then [] else [Exported(row[0])] + Fields(row[1..])
  }

  function Table(rows: seq<seq<Option<string>>>): seq<seq<string>> {
    if rows == [] then [] else [Fields(rows[0])] + Table(rows[1..])
  }

  lemma {:induction false} FieldsInFull(row: seq<Option<string>>)
    ensures |Fields(row)| == |row| && forall j | 0 <= j < |row| :: Fields(row)[j] == Exported(row[j])
  {
    if row != [] {
      FieldsInFull(row[1..]);
    }
  }

  /** One line per row and one field per column, each what the export makes of it. */
  lemma {:induction false} TableInFull(rows: seq<seq<Option<string>>>)
    ensures |Table(rows)| == |rows|
    ensures forall i | 0 <= i < |rows| ::
              |Table(rows)[i]| == |rows[i]| && forall j | 0 <= j < |rows[i]| :: Table(rows)[i][j] == Exported(rows[i][j])
  {
    if rows != [] {
      FieldsInFull(rows[0]);
      TableInFull(rows[1..]);
    }
  }

  // ── Every export reads back ─────────────────────────────────────────────────

  lemma {:induction false} QuotedReadsBack(text: string, rest: string)
    requires rest == "" || rest[0] != '"'
    ensures ReadQuoted(Doubled(text) + "\"" + rest) == Some((text, rest))
  {
    var s := Doubled(text) + "\"" + rest;
    if text == "" {
      assert s == "\"" + rest && s[1..] == rest;
    } else {
      QuotedReadsBack(text[1..], rest);
      var tail := Doubled(text[1..]) + "\"" + rest;
      assert text == [text[0]] + text[1..];
      if text[0] == '"' {
        assert s == "\"\"" + tail && s[2..] == tail;
      } else {
        assert s == [text[0]] + tail && s[1..] == tail;
      }
    }
  }

  lemma EscapedIsDoubledExport(value: Option<string>)
    ensures EscapeCsvField(value) == "\"" + Doubled(Exported(value)) + "\""
  {
  }

  lemma WrappedReadsBack(escaped: string, text: string, after: string)
    requires escaped == "\"" + Doubled(text) + "\"" && (after == "" || after[0] != '"')
    ensures (escaped + after)[0] == '"' && ReadQuoted((escaped + after)[1..]) == Some((text, after))
  {
    var tail := Doubled(text) + "\"" + after;
    QuotedReadsBack(text, after);
    assert (escaped + after)[1..] == tail;
  }

  lemma FieldReadsBack(value: Option<string>, after: string)
    requires after == "" || after[0] != '"'
    ensures (EscapeCsvField(value) + after)[0] == '"'
    ensures ReadQuoted((EscapeCsvField(value) + after)[1..]) == Some((Exported(value), after))
  {
    EscapedIsDoubledExport(value);
    WrappedReadsBack(EscapeCsvField(value), Exported(value), after);
  }

  lemma LineIsFieldThenRest(row: seq<Option<string>>, rest: string)
    requires |row| > 1
    ensures Line(row) + rest == EscapeCsvField(row[0]) + ("," + (Line(row[1..]) + rest))
  {
  }

  lemma {:induction false} LineReadsBack(row: seq<Option<string>>, rest: string)
    requires row != [] && (rest == "" || rest[0] == '\n')
    ensures ReadFields(Line(row) + rest) == Some((Fields(row), rest))
    decreases |row|
  {
    if |row| == 1 {
      FieldReadsBack(row[0], rest);
      assert Line(row) == EscapeCsvField(row[0]);
      assert row[1..] == [] && Fields(row) == [Exported(row[0])];
    } else {
      var more := Line(row[1..]) + rest;
      LineIsFieldThenRest(row, rest);
      FieldReadsBack(row[0], "," + more);
      LineReadsBack(row[1..], rest);
      assert ("," + more)[1..] == more;
    }
  }

  /** The lines below the header, each with the line feed that introduces it. */
  function Body(rows: seq<seq<Option<string>>>): string {
    if rows == [] then "" else "\n" + (Line(rows[0]) + Body(rows[1..]))
  }

  lemma JoinMore(head: string, rest: seq<string>, separator: string)
    requires rest != []
    ensures Join([head] + rest, separator) == head + (separator + Join(rest, separator))
  {
    assert ([head] + rest)[1..] == rest;
  }

  lemma {:induction false} JoinedLines(head: string, rows: seq<seq<Option<string>>>)
    ensures Join([head] + Lines(rows), "\n") == head + Body(rows)
    decreases |rows|
  {
    if rows != [] {
      JoinMore(head, Lines(rows), "\n");
      JoinedLines(Line(rows[0]), rows[1..]);
    }
  }

  lemma {:induction false} BodyReadsBack(rows: seq<seq<Option<string>>>)
    requires forall i | 0 <= i < |rows| :: rows[i] != []
    ensures ReadLines(Body(rows)) == Some(Table(rows))
    decreases |rows|
  {
    if rows != [] {
      LineReadsBack(rows[0], Body(rows[1..]));
      BodyReadsBack(rows[1..]);
      assert Body(rows)[1..] == Line(rows[0]) + Body(rows[1..]);
    }
  }

  /** Whatever quotes, commas and line breaks the ledger holds, no field ever leaks into another or onto a new line. */
  lemma RoundTrip(rows: seq<seq<Option<string>>>)
    requires forall i | 0 <= i < |rows| :: rows[i] != []
    ensures Read(Join([HEADER] + Lines(rows), "\n")) == Some(Table(rows))
  {
    var body := Body(rows);
    JoinedLines(HEADER, rows);
    BodyReadsBack(rows);
    assert (HEADER + body)[|HEADER|..] == body;
  }

  lemma {:induction false} SpacedKeeps(text: string)
    ensures |Spaced(text)| <= |text|
    ensures Spaced(text) == text <==> forall c | c in text :: !IsBreak(c)
  {
    if text != "" {
      SpacedKeeps(text[1..]);
      assert text == [text[0]] + text[1..];
      if IsBreak(text[0]) {
        assert text[0] in text;
        StartsWithSpace(text);
      }
    }
  }

  /** No line break is left in a field, */
  lemma {:induction false} NoBreakIsLeft(text: string)
    ensures forall c | c in Spaced(text) :: c != '\r' && c != '\n'
  {
    if text != "" {
      NoBreakIsLeft(text[1..]);
    }
  }

  /** a run of line breaks is one space, */
  lemma {:induction false} ARunIsOneSpace(text: string)
    requires text != "" && forall i | 0 <= i < |text| :: text[i] == '\r' || text[i] == '\n'
    ensures Spaced(text) == " "
  {
    if |text| > 1 {
      ARunIsOneSpace(text[1..]);
    } else {
      assert text[1..] == "";
    }
  }

  /** and a text is spaced piece by piece, as long as no run is cut in two. */
  lemma {:induction false} PiecesAreSpacedApart(first: string, rest: string)
    requires first == "" || rest == "" || !IsBreak(first[|first| - 1]) || !IsBreak(rest[0])
    ensures Spaced(first + rest) == Spaced(first) + Spaced(rest)
  {
    if first == "" {
      assert first + rest == rest;
    } else {
      var tail := first[1..];
      assert (first + rest)[0] == first[0] && (first + rest)[1..] == tail + rest;
      assert tail != "" ==> tail[|tail| - 1] == first[|first| - 1];
      if tail == "" {
        assert tail + rest == rest && Spaced(tail) == "";
        assert IsBreak(first[0]) && rest != "" ==> !IsBreak(rest[0]);
      } else {
        PiecesAreSpacedApart(tail, rest);
        assert (first + rest)[1] == tail[0] == first[1];
      }
    }
  }

  /** And what keeps a cell from running as a formula: a quote before any text that starts like one. */
  lemma ExportedInFull(text: string)
    ensures Exported(None) == ""
    ensures Exported(Some(text)) ==
            if text != "" && text[0] in {'=', '+', '-', '@', '\t'} then "'" + Spaced(text) else Spaced(text)
  {
    if LooksLikeFormula(Spaced(text)) {
      FormulaStart(text);
    }
  }

  /** What the export changes: a text survives verbatim exactly when it has no line break and does not look like a formula. */
  lemma VerbatimExactlyWhen(text: string)
    ensures Exported(Some(text)) == text <==>
            (forall c | c in text :: c != '\r' && c != '\n') && (text == "" || text[0] !in {'=', '+', '-', '@', '\t'})
  {
    SpacedKeeps(text);
    if forall c | c in text :: !IsBreak(c) {
      assert Spaced(text) == text;
    } else if LooksLikeFormula(Spaced(text)) {
      assert Exported(Some(text))[0] == '\'';
      if Exported(Some(text)) == text {
        // Only a line break can turn into something that starts a formula, and a space cannot.
        FormulaStart(text);
      }
    }
  }

  lemma {:induction false} FormulaStart(text: string)
    requires LooksLikeFormula(Spaced(text))
    ensures LooksLikeFormula(text)
  {
    if text != "" && IsBreak(text[0]) {
      if |text| > 1 && IsBreak(text[1]) {
        StartsWithSpace(text[1..]);
      }
    }
  }

  lemma {:induction false} StartsWithSpace(text: string)
    requires text != "" && IsBreak(text[0])
    ensures Spaced(text) != "" && Spaced(text)[0] == ' '
  {
    if |text| > 1 && IsBreak(text[1]) {
      StartsWithSpace(text[1..]);
    }
  }
}
