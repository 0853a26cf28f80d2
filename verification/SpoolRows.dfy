/** Replay read as a walk over the rows of the spool file instead of its bytes. */
module SpoolRows {
  import opened Options
  import opened TextLines
  import opened Texts
  import opened Spool

  // What the CSV builder leaves in the line buffer: at most 639 bytes on one line.
  predicate RowOk(row: string) {
    1 <= |row| <= 639 && NewlineFree(row) && '\0' !in row
  }

  predicate RowsOk(rows: seq<string>) {
    forall r :: r in rows ==> RowOk(r)
  }

  // A place replay can stop: before a row, or (half) after a 639-byte row whose newline is still to be read.
  datatype At = At(row: nat, half: bool)

  const START := At(0, false)

  predicate On(rows: seq<string>, at: At) {
    at.row <= |rows| && (at.half ==> at.row < |rows| && |rows[at.row]| == LINE_MAX - 1)
  }

  function Offset(rows: seq<string>, at: At): nat
    requires at.row <= |rows|
  {
    |Flat(rows[..at.row])| + if at.half then LINE_MAX - 1 else 0
  }

  // How many rows from the front of the file have been acknowledged there.
  function Acked(at: At): nat {
    at.row + if at.half then 1 else 0
  }

  function Next(rows: seq<string>, at: At): At {
    if !at.half && at.row < |rows| && |rows[at.row]| == LINE_MAX - 1 then At(at.row, true) else At(at.row + 1, false)
  }

  // Where one tick gets to from `at`, given the broker's answers.
  function Reached(rows: seq<string>, at: At, acks: Acks, i: nat): At
    decreases REPLAY_PER_TICK - i
  {
    if i >= REPLAY_PER_TICK || at.row >= |rows| || (!at.half && !acks[i]) then at
    else Reached(rows, Next(rows, at), acks, i + 1)
  }

  // --- One round on a file of rows ---

  lemma {:induction false} LineSizeOf(row: string, rest: string, max: nat)
    requires NewlineFree(row) && |row| <= max
    ensures LineSize(row + "\n" + rest, max) == if |row| < max then |row| + 1 else max
  {
    if row != "" {
      assert (row + "\n" + rest)[1..] == row[1..] + "\n" + rest;
      LineSizeOf(row[1..], rest, max - 1);
    }
  }

  lemma {:induction false} StrLenOf(s: string)
    requires '\0' !in s
    ensures StrLen(s) == |s|
  {
    if s != "" {
      assert s[0] in s;
      StrLenOf(s[1..]);
    }
  }

  lemma RowsSplit(rows: seq<string>, k: nat)
    requires k < |rows|
    ensures rows[..k + 1] == rows[..k] + [rows[k]]
    ensures rows == rows[..k + 1] + rows[k + 1..]
  {
  }

  lemma FlatSplits(rows: seq<string>, k: nat)
    requires k < |rows|
    ensures Flat(rows) == Flat(rows[..k]) + (rows[k] + "\n" + Flat(rows[k + 1..]))
    ensures Flat(rows[..k + 1]) == Flat(rows[..k]) + (rows[k] + "\n")
  {
    hide Flat;
    RowsSplit(rows, k);
    FlatOfConcat(rows[..k], [rows[k]]);
    FlatOne(rows[k]);
    FlatOfConcat(rows[..k + 1], rows[k + 1..]);
    Regroup(Flat(rows[..k]), rows[k] + "\n", Flat(rows[k + 1..]));
  }

  lemma ReadsWholeRow(front: string, row: string, rest: string)
    requires RowOk(row)
    ensures var piece := FGets(front + (row + "\n" + rest), |front|);
            && piece == (if |row| < LINE_MAX - 1 then row + "\n" else row)
            && StrLen(piece) == |piece| && Row(piece) == row
  {
    var tail := row + "\n" + rest;
    assert (front + tail)[|front|..] == tail;
    LineSizeOf(row, rest, LINE_MAX - 1);
    var piece := FGets(front + tail, |front|);
    assert piece == if |row| < LINE_MAX - 1 then row + "\n" else row;
    StrLenOf(piece);
    assert piece[..|piece|] == piece;
  }

  lemma ReadsLoneNewline(front: string, row: string, rest: string)
    ensures var piece := FGets(front + (row + "\n" + rest), |front| + |row|);
            piece == "\n" && StrLen(piece) == 1 && Row(piece) == ""
  {
    var tail := row + "\n" + rest;
    assert (front + tail)[|front| + |row|..] == "" + "\n" + rest;
    LineSizeOf("", rest, LINE_MAX - 1);
    StrLenOf("\n");
  }

  lemma PastTheEnd(file: string)
    ensures FGets(file, |file|) == ""
  {
  }

  // What one read at a stopping place brings.
  lemma FetchOnRows(rows: seq<string>, at: At)
    requires RowsOk(rows) && On(rows, at)
    ensures var piece := FGets(Flat(rows), Offset(rows, at));
            if at.row == |rows| then piece == ""
            else
              && rows[at.row] != "" && piece != "" && StrLen(piece) == |piece|
              && Row(piece) == (if at.half then "" else rows[at.row])
              && Offset(rows, at) + |piece| == Offset(rows, Next(rows, at))
  {
    hide FGets, StrLen, Flat, Row, NewlineFree;
    var k := at.row;
    if k == |rows| {
      assert rows[..k] == rows;
      PastTheEnd(Flat(rows));
    } else {
      FlatSplits(rows, k);
      assert RowOk(rows[k]);
      hide RowsOk;
      if at.half {
        ReadsLoneNewline(Flat(rows[..k]), rows[k], Flat(rows[k + 1..]));
      } else {
        ReadsWholeRow(Flat(rows[..k]), rows[k], Flat(rows[k + 1..]));
      }
    }
  }

  lemma RoundOnRows(rows: seq<string>, at: At, p: Progress, ack: bool)
    requires RowsOk(rows) && On(rows, at)
    ensures var pos := Offset(rows, at);
            var next := Next(rows, at);
            if at.row == |rows| then Round(Flat(rows), pos, p, ack) == None
            else
              && On(rows, next)
              && pos + |FGets(Flat(rows), pos)| == Offset(rows, next)
              && Round(Flat(rows), pos, p, ack)
                 == if at.half then Some(Progress(Offset(rows, next), p.sent, true))
                    else if ack then Some(Progress(Offset(rows, next), p.sent + [rows[at.row]], true))
                    else None
  {
    hide FGets, StrLen, Flat, Row, NewlineFree, RowsOk, RowOk, Offset, LineSize;
    FetchOnRows(rows, at);
  }

  lemma SentSoFar(sent: seq<string>, rows: seq<string>, i: nat, j: nat)
    requires i < j <= |rows|
    ensures sent + [rows[i]] + rows[i + 1..j] == sent + rows[i..j]
  {
    assert [rows[i]] + rows[i + 1..j] == rows[i..j];
  }

  lemma NothingSent(sent: seq<string>, rows: seq<string>, i: nat)
    requires i <= |rows|
    ensures sent + rows[i..i] == sent
  {
  }

  // A tick over whole rows sends the next rows, byte for byte, and stops where the abstract walk stops.
  lemma {:induction false} ReplayOnRows(rows: seq<string>, at: At, p: Progress, acks: Acks, i: nat)
    requires RowsOk(rows) && On(rows, at) && p.cursor == Offset(rows, at)
    ensures var to := Reached(rows, at, acks, i);
            && On(rows, to) && Acked(at) <= Acked(to) <= |rows|
            && (i <= REPLAY_PER_TICK ==> Acked(to) <= Acked(at) + REPLAY_PER_TICK - i)
            && Replay(Flat(rows), p.cursor, p, acks, i)
               == Progress(Offset(rows, to), p.sent + rows[Acked(at)..Acked(to)], p.advanced || to != at)
    decreases REPLAY_PER_TICK - i
  {
    hide Flat, Round, FGets, Offset, RowsOk, Replay;
    ReplayUnfolds(Flat(rows), p.cursor, p, acks, i);
    NothingSent(p.sent, rows, Acked(at));
    if i < REPLAY_PER_TICK {
      RoundOnRows(rows, at, p, acks[i]);
      if at.row < |rows| && (at.half || acks[i]) {
        var next := Next(rows, at);
        var q := Progress(Offset(rows, next), if at.half then p.sent else p.sent + [rows[at.row]], true);
        ReplayOnRows(rows, next, q, acks, i + 1);
        if !at.half {
          SentSoFar(p.sent, rows, at.row, Acked(Reached(rows, next, acks, i + 1)));
        }
      }
    }
  }
}
