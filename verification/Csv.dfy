/** One telemetry row: 23 fixed columns, then as many cell and temperature columns as the battery reports, built in
    a fixed buffer. Numbers arrive already formatted. */
module Csv {
  import opened CommaText

  const FIXED_COLUMNS: nat := 23
  const MAX_CELLS: nat := 16
  const MAX_TEMPS: nat := 8

  // A snapshot's fields as text, with the counts the battery claims.
  datatype Snapshot = Snapshot(fixed: Columns, cellCount: int, cells: Cells, tempCount: int, temps: Temps)

  type Columns = s: seq<string> | |s| == FIXED_COLUMNS witness seq(FIXED_COLUMNS, _ => "")
  type Cells = s: seq<string> | |s| == MAX_CELLS witness seq(MAX_CELLS, _ => "")
  type Temps = s: seq<string> | |s| == MAX_TEMPS witness seq(MAX_TEMPS, _ => "")

  function Shown(count: int, max: nat): (n: nat)
    ensures n <= max
  {
    if count <= 0 then 0 else if count < max then count else max
  }

  function Fields(s: Snapshot): seq<string> {
    s.fixed + s.cells[..Shown(s.cellCount, MAX_CELLS)] + s.temps[..Shown(s.tempCount, MAX_TEMPS)]
  }

  function Row(s: Snapshot): string {
    Joined(Fields(s))
  }

  // --- Building the row ---

  // What the buffer holds once `text` and its terminator went to `at` as far as they fit.
  function Printed(out: seq<char>, at: nat, text: string): (r: seq<char>)
    ensures |r| == |out|
  {
    if at >= |out| then out
    else
      var kept := if |text| < |out| - at then text else text[..|out| - at - 1];
      out[..at] + kept + ['\0'] + out[at + |kept| + 1..]
  }

  // The buffer with i bytes of the text written at `at`.
  function Partly(before: seq<char>, at: nat, text: string, i: nat): seq<char>
    requires i <= |text| && at + i <= |before|
  {
    before[..at] + text[..i] + before[at + i..]
  }

  lemma PutNothing(before: seq<char>, at: nat, text: string)
    requires at <= |before|
    ensures Partly(before, at, text, 0) == before
  {
  }

  lemma PutNext(before: seq<char>, at: nat, text: string, i: nat)
    requires i < |text| && at + i < |before|
    ensures |Partly(before, at, text, i)| == |before|
    ensures Partly(before, at, text, i)[at + i := text[i]] == Partly(before, at, text, i + 1)
  {
  }

  lemma PutEnd(before: seq<char>, at: nat, text: string, i: nat)
    requires i <= |text| && at + i < |before| && (i == |text| || at + i + 1 == |before|)
    ensures |Partly(before, at, text, i)| == |before|
    ensures Partly(before, at, text, i)[at + i := '\0'] == Printed(before, at, text)
  {
  }

  // snprintf of formatted text at `at`; nothing is written once the buffer is full.
  method Snprintf(out: array<char>, at: nat, text: string) returns (n: nat)
    modifies out
    ensures n == |text|
    ensures out[..] == Printed(old(out[..]), at, text)
  {
    n := |text|;
    if at < out.Length {
      ghost var before := out[..];
      PutNothing(before, at, text);
      hide Partly, Printed;
      var i: nat := 0;
      while i < |text| && at + i + 1 < out.Length
        invariant i <= |text| && at + i < out.Length
        invariant out[..] == Partly(before, at, text, i)
      {
        PutNext(before, at, text, i);
        out[at + i] := text[i];
        i := i + 1;
      }
      PutEnd(before, at, text, i);
      out[at + i] := '\0';
    }
  }

  // How far the row has come: its text so far while it fits, otherwise only that it does not.
  predicate Built(out: seq<char>, n: nat, text: string) {
    && n <= |text| && (n < |out| <==> |text| < |out|)
    && (n < |out| ==> n == |text| && out[..n] == text && out[n] == '\0')
  }

  lemma PrintedBuilds(out: seq<char>, before: string, text: string)
    requires |before| < |out| ==> out[..|before|] == before
    ensures Built(Printed(out, |before|, text), |before| + |text|, before + text)
  {
  }

  lemma NextColumn(before: seq<string>, values: seq<string>, i: nat)
    requires before != [] && i < |values|
    ensures Joined(before + values[..i + 1]) == Joined(before + values[..i]) + ("," + values[i])
  {
    JoinedSnoc(before + values[..i], values[i]);
    assert before + values[..i] + [values[i]] == before + values[..i + 1];
    assert "," + values[i] == "," + values[i];
  }

  // The value columns after the fixed ones, as long as there is room.
  method AppendColumns(ghost before: seq<string>, values: seq<string>, out: array<char>, n: nat) returns (n': nat)
    requires before != [] && Built(out[..], n, Joined(before))
    modifies out
    ensures Built(out[..], n', Joined(before + values))
  {
    hide Joined, Printed;
    n' := n;
    var i: nat := 0;
    assert before + values[..0] == before;
    while i < |values| && n' < out.Length
      invariant i <= |values|
      invariant Built(out[..], n', Joined(before + values[..i]))
    {
      PrintedBuilds(out[..], Joined(before + values[..i]), "," + values[i]);
      NextColumn(before, values, i);
      var added := Snprintf(out, n', "," + values[i]);
      n' := n' + added;
      i := i + 1;
    }
    assert before + values[..i] + values[i..] == before + values && values[..|values|] == values;
    JoinedGrows(before + values[..i], values[i..]);
  }

  // Columns that are always written, separated by commas; the would-be length goes on counting past a full buffer.
  method FixedColumns(fields: seq<string>, out: array<char>) returns (n: nat)
    requires fields != []
    modifies out
    ensures n == |Joined(fields)| && Built(out[..], n, Joined(fields))
  {
    hide Joined, Printed, Built;
    n := 0;
    var col: nat := 0;
    while col < |fields|
      invariant col <= |fields|
      invariant col == 0 ==> n == 0
      invariant col > 0 ==> n == |Joined(fields[..col])| && Built(out[..], n, Joined(fields[..col]))
    {
      ghost var text := if col == 0 then "" else Joined(fields[..col]);
      if col > 0 {
        CommaFollows(out[..], text);
        if n < out.Length {
          out[n] := ',';
        }
      }
      col := col + 1;
      if col > 1 {
        n := n + 1;
        text := text + ",";
      }
      PrintedBuilds(out[..], text, fields[col - 1]);
      FixedStep(fields, col);
      var added := Snprintf(out, n, fields[col - 1]);
      n := n + added;
    }
    assert fields[..col] == fields;
  }

  lemma CommaFollows(out: seq<char>, text: string)
    requires Built(out, |text|, text)
    ensures var after := if |text| < |out| then out[|text| := ','] else out;
            |text| + 1 < |out| ==> after[..|text| + 1] == text + ","
  {
  }

  lemma FixedStep(fields: seq<string>, col: nat)
    requires 0 < col <= |fields|
    ensures Joined(fields[..col]) == (if col == 1 then "" else Joined(fields[..col - 1]) + ",") + fields[col - 1]
  {
    assert fields[..col] == fields[..col - 1] + [fields[col - 1]];
    if col > 1 {
      JoinedSnoc(fields[..col - 1], fields[col - 1]);
    }
  }

  /** The row fits exactly when the result is below the buffer's size, and then the buffer holds just the row and its
      terminator. */
  method SerializeCsv(s: Snapshot, out: array<char>) returns (n: nat)
    modifies out
    ensures n < out.Length <==> |Row(s)| < out.Length
    ensures n < out.Length ==> n == |Row(s)| && out[..n] == Row(s) && out[n] == '\0'
  {
    hide Joined;
    n := FixedColumns(s.fixed, out);
    var cells := if s.cellCount < MAX_CELLS then s.cellCount else MAX_CELLS;
    if cells > 0 {
      n := AppendColumns(s.fixed, s.cells[..cells], out, n);
    }
    ghost var before := s.fixed + s.cells[..Shown(s.cellCount, MAX_CELLS)];
    assert s.fixed + s.cells[..0] == s.fixed;
    assert before + s.temps[..0] == before;
    var temps := if s.tempCount < MAX_TEMPS then s.tempCount else MAX_TEMPS;
    if temps > 0 {
      n := AppendColumns(before, s.temps[..temps], out, n);
    }
  }

  // --- Reading it back ---

  // The columns of a row: 23 that are always there, then as many cells and after them as many temperatures as the
  // battery claims, up to 16 and 8.
  predicate ColumnsAre(s: Snapshot, columns: seq<string>) {
    var cells := if s.cellCount < 0 then 0 else if s.cellCount > 16 then 16 else s.cellCount;
    var temps := if s.tempCount < 0 then 0 else if s.tempCount > 8 then 8 else s.tempCount;
    && |columns| == 23 + cells + temps
    && (forall i :: 0 <= i < 23 ==> columns[i] == s.fixed[i])
    && (forall i :: 0 <= i < cells ==> columns[23 + i] == s.cells[i])
    && (forall i :: 0 <= i < temps ==> columns[23 + cells + i] == s.temps[i])
  }

  lemma FieldsAreColumns(s: Snapshot)
    ensures ColumnsAre(s, Fields(s))
  {
  }

  /** A row splits back into its 23 fixed columns and the cell and temperature columns exactly when no field contains a
      comma; formatted numbers never do, so this is about the configured device name. */
  lemma RowReadsBack(s: Snapshot)
    ensures ColumnsAre(s, Fields(s))
    ensures Split(Row(s)) == Fields(s) <==> forall f :: f in Fields(s) ==> ',' !in f
  {
    FieldsAreColumns(s);
    if forall f :: f in Fields(s) ==> ',' !in f {
      SplitJoined(Fields(s));
    }
    PiecesHaveNoComma(Row(s));
  }
}
