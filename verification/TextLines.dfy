/** Text kept one record a line, and how a reader splits it again. */
module TextLines {
  import opened Texts

  predicate NewlineFree(s: string) {
    forall i :: 0 <= i < |s| ==> s[i] != '\n'
  }

  // The bytes of some records, one line each.
  function Flat(records: seq<string>): string {
    if records == [] then "" else records[0] + "\n" + Flat(records[1..])
  }

  // Nothing but whole lines.
  predicate Complete(text: string) {
    text == "" || text[|text| - 1] == '\n'
  }

  function LineLength(text: string): (n: nat)
    ensures n <= |text| && NewlineFree(text[..n]) && (n < |text| ==> text[n] == '\n')
  {
    if text == "" || text[0] == '\n' then 0 else 1 + LineLength(text[1..])
  }

  // The lines a reader sees; a last line without a newline is a line too.
  function Lines(text: string): seq<string>
    decreases |text|
  {
    if text == "" then []
    else
      var n := LineLength(text);
      [text[..n]] + if n < |text| then Lines(text[n + 1..]) else []
  }

  lemma LineLengthIs(text: string, n: nat)
    requires n < |text| && NewlineFree(text[..n]) && text[n] == '\n'
    ensures LineLength(text) == n
  {
    var m := LineLength(text);
    assert forall i :: 0 <= i < n ==> text[..n][i] == text[i];
    assert forall i :: 0 <= i < m ==> text[..m][i] == text[i];
  }

  lemma FirstLine(line: string, rest: string)
    requires NewlineFree(line)
    ensures var text := line + "\n" + rest;
            && text != "" && LineLength(text) == |line| && text[..|line|] == line && text[|line| + 1..] == rest
            && Lines(text) == [line] + Lines(rest)
  {
    var text := line + "\n" + rest;
    assert text[..|line|] == line && text[|line| + 1..] == rest;
    LineLengthIs(text, |line|);
  }

  lemma CompleteHasNewline(text: string)
    requires Complete(text) && text != ""
    ensures LineLength(text) < |text|
  {
    assert text[..|text|] == text;
  }

  lemma SplitAt(text: string, n: nat)
    requires n < |text| && text[n] == '\n'
    ensures text == text[..n] + "\n" + text[n + 1..]
    ensures Complete(text) ==> Complete(text[n + 1..])
  {
    var rest := text[n + 1..];
    assert rest != "" ==> rest[|rest| - 1] == text[|text| - 1];
  }

  // A non-empty complete text starts with a whole line and goes on complete.
  lemma CompleteSplits(text: string) returns (line: string, rest: string)
    requires Complete(text) && text != ""
    ensures text == line + "\n" + rest && NewlineFree(line) && Complete(rest) && |rest| < |text|
    ensures Lines(text) == [line] + Lines(rest)
  {
    hide LineLength, NewlineFree, Complete, Lines;
    var n := LineLength(text);
    CompleteHasNewline(text);
    SplitAt(text, n);
    line, rest := text[..n], text[n + 1..];
    FirstLine(line, rest);
  }

  lemma {:induction false} LinesOfConcat(a: string, b: string)
    requires Complete(a)
    ensures Lines(a + b) == Lines(a) + Lines(b)
    decreases |a|
  {
    if a == "" {
      assert a + b == b && Lines(a) == [];
    } else {
      hide Lines, Complete, NewlineFree;
      var line, rest := CompleteSplits(a);
      FirstLine(line, rest + b);
      LinesOfConcat(rest, b);
      Regroup(line + "\n", rest, b);
      Regroup([line], Lines(rest), Lines(b));
    }
  }

  lemma {:induction false} LinesOfFlat(records: seq<string>)
    requires forall r :: r in records ==> NewlineFree(r)
    ensures Lines(Flat(records)) == records && Complete(Flat(records))
  {
    if records != [] {
      FirstLine(records[0], Flat(records[1..]));
      LinesOfFlat(records[1..]);
      assert records == [records[0]] + records[1..];
    }
  }

  lemma FlatOne(row: string)
    ensures Flat([row]) == row + "\n"
  {
    assert Flat([row][1..]) == "";
  }

  lemma {:induction false} FlatOfConcat(a: seq<string>, b: seq<string>)
    ensures Flat(a + b) == Flat(a) + Flat(b)
  {
    if a == [] {
      assert a + b == b;
    } else {
      FlatOfConcat(a[1..], b);
      assert (a + b)[1..] == a[1..] + b;
      assert a[0] + "\n" + (Flat(a[1..]) + Flat(b)) == a[0] + "\n" + Flat(a[1..]) + Flat(b);
    }
  }

  // Taking whole lines off the front of some records' bytes takes whole records.
  lemma {:induction false} DropLines(records: seq<string>, front: string, back: string) returns (k: nat)
    requires forall r :: r in records ==> NewlineFree(r)
    requires Complete(front) && Flat(records) == front + back
    ensures k <= |records| && back == Flat(records[k..])
    decreases |front|
  {
    if front == "" {
      assert front + back == back && records[0..] == records;
      return 0;
    }
    hide Lines, LineLength, Complete, NewlineFree;
    var line, rest := CompleteSplits(front);
    Regroup(line + "\n", rest, back);
    FirstLine(line, rest + back);
    FirstLine(records[0], Flat(records[1..]));
    assert rest + back == Flat(records[1..]);
    k := DropLines(records[1..], rest, back);
    assert records[1..][k..] == records[k + 1..];
    k := k + 1;
  }
}
