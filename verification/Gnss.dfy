/** One +CGNSSINFO line: split in place at its commas, then read relative to the field that is a lone N or S. */
module Gnss {
  import opened CommaText

  const MAX_FIELDS: nat := 24

  // The C library's number readers: atof is left open, atoi is spelled out.
  datatype Env = Env(atof: string -> real)

  datatype Position = Position(
    lat: real, lon: real, altM: real, speedKmh: real, courseDeg: real, hdop: real, utc: string)

  // --- Splitting the line ---

  predicate NoNul(s: string) {
    forall i :: 0 <= i < |s| ==> s[i] != '\0'
  }

  // A C string with this text starts at `start`.
  predicate CStringAt(buf: seq<char>, start: nat, text: string) {
    start + |text| < |buf| && buf[start..start + |text|] == text && NoNul(text) && buf[start + |text|] == '\0'
  }

  // The first 24 fields.
  function Fields(text: string): (r: seq<string>)
    ensures |r| <= 24 && r <= Split(text) && (|r| < 24 ==> r == Split(text))
  {
    var all := Split(text);
    if |all| <= MAX_FIELDS then all else all[..MAX_FIELDS]
  }

  function CommaAt(text: string): (n: nat)
    ensures n <= |text| && ',' !in text[..n] && (n < |text| ==> text[n] == ',')
  {
    if text == "" || text[0] == ',' then 0
    else
      var n := 1 + CommaAt(text[1..]);
      assert text[..n] == [text[0]] + text[1..][..n - 1];
      n
  }

  lemma {:induction false} SplitFirst(text: string)
    ensures var n := CommaAt(text);
            Split(text) == [text[..n]] + if n < |text| then Split(text[n + 1..]) else []
  {
    if text != "" {
      if text[0] == ',' {
        assert text[..0] == "" && CommaAt(text) == 0;
      } else {
        var rest := text[1..];
        SplitFirst(rest);
        var n := CommaAt(rest);
        assert text[..n + 1] == [text[0]] + rest[..n];
        assert n < |rest| ==> rest[n + 1..] == text[n + 2..];
      }
    }
  }

  // strchr for a comma: the distance to it, or to the terminator.
  method FindComma(line: array<char>, p: nat, ghost text: string) returns (c: nat, found: bool)
    requires CStringAt(line[..], p, text)
    ensures c == p + CommaAt(text) && (found <==> CommaAt(text) < |text|)
  {
    hide CommaAt;
    c := p;
    while line[c] != ',' && line[c] != '\0'
      invariant p <= c <= p + |text|
      invariant ',' !in text[..c - p]
      decreases p + |text| - c
    {
      assert line[..][p..p + |text|][c - p] == line[c];
      c := c + 1;
    }
    found := line[c] == ',';
    assert c < p + |text| ==> line[..][p..p + |text|][c - p] == line[c];
    FirstComma(text, c - p);
  }

  lemma FirstComma(text: string, n: nat)
    requires n <= |text| && ',' !in text[..n] && (n < |text| ==> text[n] == ',')
    ensures CommaAt(text) == n
  {
    var m := CommaAt(text);
    forall i | 0 <= i < n ensures text[i] in text[..n] {
      assert text[..n][i] == text[i];
    }
    forall i | 0 <= i < m ensures text[i] in text[..m] {
      assert text[..m][i] == text[i];
    }
  }

  lemma CutParts(buf: seq<char>, p: nat, text: string, n: nat)
    requires p + |text| <= |buf| && buf[p..p + |text|] == text && n < |text|
    ensures var cut := buf[p + n := '\0'];
            cut[p..p + n] == text[..n] && cut[p + n + 1..p + |text|] == text[n + 1..]
  {
    var cut := buf[p + n := '\0'];
    var whole, front, back := buf[p..p + |text|], cut[p..p + n], cut[p + n + 1..p + |text|];
    forall i | 0 <= i < n ensures front[i] == text[i] {
      assert whole[i] == text[i];
    }
    forall i | 0 <= i < |text| - n - 1 ensures back[i] == text[n + 1..][i] {
      assert whole[n + 1 + i] == text[n + 1 + i];
    }
  }

  // Ending a field at its comma leaves that field, the rest of the line, and all earlier fields as C strings.
  lemma CutAtComma(buf: seq<char>, p: nat, text: string, n: nat)
    requires CStringAt(buf, p, text) && n < |text|
    ensures var cut := buf[p + n := '\0'];
            && CStringAt(cut, p, text[..n]) && CStringAt(cut, p + n + 1, text[n + 1..])
            && forall start: nat, field: string :: CStringAt(buf, start, field) && start + |field| < p ==>
                 CStringAt(cut, start, field)
  {
    var cut := buf[p + n := '\0'];
    CutParts(buf, p, text, n);
    forall start: nat, field: string | CStringAt(buf, start, field) && start + |field| < p
      ensures CStringAt(cut, start, field)
    {
      assert cut[start..start + |field|] == buf[start..start + |field|];
    }
  }

  ghost predicate FieldsAt(buf: seq<char>, starts: seq<nat>, fields: seq<string>, end: nat) {
    |starts| == |fields| &&
    forall k :: 0 <= k < |fields| ==> CStringAt(buf, starts[k], fields[k]) && starts[k] + |fields[k]| < end
  }

  // At most 24 fields, each left behind as a C string inside the line's own buffer.
  method SplitInPlace(line: array<char>, ghost text: string) returns (starts: seq<nat>)
    requires CStringAt(line[..], 0, text)
    modifies line
    ensures FieldsAt(line[..], starts, Fields(text), line.Length)
  {
    hide CStringAt, CommaAt, NoNul, Split;
    starts := [];
    var p: nat := 0;
    var found := true;
    ghost var done: seq<string> := [];
    ghost var rest := text;
    while |starts| < MAX_FIELDS
      invariant found && |starts| <= MAX_FIELDS && p <= line.Length
      invariant Split(text) == done + Split(rest)
      invariant CStringAt(line[..], p, rest) && FieldsAt(line[..], starts, done, p)
      decreases MAX_FIELDS - |starts|
    {
      SplitFirst(rest);
      var c;
      c, found := FindComma(line, p, rest);
      starts := starts + [p];
      InBuffer(line[..], p, rest);
      if !found {
        done := done + [rest];
        assert rest[..|rest|] == rest;
        assert Split(text) == done;
        return;
      }
      ghost var n := CommaAt(rest);
      CutAtComma(line[..], p, rest, n);
      done := done + [rest[..n]];
      rest := rest[n + 1..];
      line[c] := '\0';
      p := c + 1;
    }
    assert (done + Split(rest))[..MAX_FIELDS] == done;
  }

  lemma InBuffer(buf: seq<char>, start: nat, text: string)
    requires CStringAt(buf, start, text)
    ensures start + |text| < |buf|
  {
  }

  // The text a char pointer into the line stands for.
  method Text(line: array<char>, start: nat, ghost text: string) returns (s: string)
    requires CStringAt(line[..], start, text)
    ensures s == text
  {
    s := "";
    var i: nat := start;
    assert text != "" ==> line[..][start..start + |text|][0] == line[start];
    while line[i] != '\0'
      invariant start <= i <= start + |text| && s == text[..i - start]
      invariant line[i] == if i - start < |text| then text[i - start] else '\0'
      decreases start + |text| - i
    {
      s := s + [line[i]];
      i := i + 1;
      assert i - start < |text| ==> line[..][start..start + |text|][i - start] == line[i];
    }
  }

  // --- Reading the fields ---

  predicate Hemisphere(field: string) {
    field == "N" || field == "S"
  }

  // The first lone N or S that is neither the first nor the last field; -1 when there is none.
  function Anchor(fields: seq<string>, i: nat): (ns: int)
    ensures ns == -1 || (i <= ns < |fields| - 1 && Hemisphere(fields[ns]))
    ensures forall j :: i <= j < (if ns == -1 then |fields| - 1 else ns) ==> !Hemisphere(fields[j])
    decreases |fields| - i
  {
    if i + 1 >= |fields| then -1 else if Hemisphere(fields[i]) then i else Anchor(fields, i + 1)
  }

  function DigitsAtFront(s: string): (n: nat)
    ensures n <= |s|
  {
    if s == "" || !('0' <= s[0] <= '9') then 0 else 1 + DigitsAtFront(s[1..])
  }

  function Natural(digits: string): int {
    if digits == "" then 0 else 10 * Natural(digits[..|digits| - 1]) + (digits[|digits| - 1] as int - '0' as int)
  }

  function SkipBlanks(s: string): string {
    if s != "" && (s[0] == ' ' || '\t' <= s[0] <= '\r') then SkipBlanks(s[1..]) else s
  }

  // The integer at the front of a field, 0 when there is none.
  function Atoi(s: string): int {
    var s := SkipBlanks(s);
    if s != "" && s[0] == '-' then -Natural(s[1..][..DigitsAtFront(s[1..])])
    else
      var s := if s != "" && s[0] == '+' then s[1..] else s;
      Natural(s[..DigitsAtFront(s)])
  }

  function Sum(fields: seq<string>): int {
    if fields == [] then 0 else Sum(fields[..|fields| - 1]) + Atoi(fields[|fields| - 1])
  }

  function Truncated(v: real): int {
    if v >= 0.0 then v.Floor else -(-v).Floor
  }

  // Degrees from either format: ddmm.mmmm when the integer part has four digits or more, decimal degrees otherwise.
  function CoordToDeg(env: Env, s: string): real {
    var v := env.atof(s);
    if DigitsAtFront(s) < 4 then v
    else
      var deg := Truncated(v / 100.0);
      deg as real + (v - deg as real * 100.0) / 60.0
  }

  function Utc(date: string, time: string): string {
    if |date| == 6 && |time| >= 6 then
      "20" + date[4..6] + "-" + date[2..4] + "-" + date[..2] + " " + time[..2] + ":" + time[2..4] + ":" + time[4..6]
    else ""
  }

  function FieldOr(env: Env, fields: seq<string>, i: nat): real {
    if i < |fields| then env.atof(fields[i]) else 0.0
  }

  function Located(env: Env, f: seq<string>, ns: nat): Position
    requires 2 <= ns && ns + 7 < |f|
  {
    var lat, lon := CoordToDeg(env, f[ns - 1]), CoordToDeg(env, f[ns + 1]);
    Position(if f[ns] == "S" then -lat else lat,
             if f[ns + 2] != "" && f[ns + 2][0] == 'W' then -lon else lon,
             env.atof(f[ns + 5]), env.atof(f[ns + 6]) * 1.852, env.atof(f[ns + 7]),
             FieldOr(env, f, ns + 9), Utc(f[ns + 3], f[ns + 4]))
  }

  // What one line makes of the receiver's state.
  datatype Fix = Fix(position: Position, hasFix: bool, sats: int, satsUsed: int)

  function Counts(f: seq<string>): int {
    var ns := Anchor(f, 1);
    if |f| <= 1 then 0 else Sum(f[1..(if ns >= 2 then ns - 2 else |f| - 1) + 1])
  }

  function Parsed(env: Env, before: Position, f: seq<string>): Fix {
    var ns := Anchor(f, 1);
    if ns < 2 || ns + 7 >= |f| then Fix(before, false, Counts(f), 0)
    else Fix(Located(env, f, ns), true, Counts(f), if ns + 11 < |f| then Atoi(f[ns + 11]) else 0)
  }

  lemma AnchorIs(fields: seq<string>, ns: nat)
    requires 1 <= ns < |fields| - 1 && Hemisphere(fields[ns])
    requires forall j :: 1 <= j < ns ==> !Hemisphere(fields[j])
    ensures Anchor(fields, 1) == ns
  {
    var m := Anchor(fields, 1);
  }

  /** The receiver's last known position and satellite counts. */
  class Receiver {
    var position: Position
    var hasFix: bool
    var sats: int
    var satsUsed: int

    constructor (position: Position)
      ensures this.position == position && !hasFix
    {
      this.position, hasFix, sats, satsUsed := position, false, 0, 0;
    }

    // The position is replaced only when the line has a fix and reaches through the course field.
    method ParseInfo(env: Env, line: array<char>, ghost text: string)
      requires CStringAt(line[..], 0, text)
      modifies this, line
      ensures Fix(position, hasFix, sats, satsUsed) == Parsed(env, old(position), Fields(text))
    {
      hide CStringAt, Fields, Sum, Atoi, CoordToDeg, Anchor;
      var f := ReadFields(line, text);
      var ns := FindAnchor(f);
      hasFix, sats, satsUsed := false, 0, 0;
      if |f| > 1 {
        sats := SumCounts(f, ns);
      }
      hide Counts;
      if ns < 2 || ns + 7 >= |f| {
        return;
      }
      position := Located(env, f, ns);
      if ns + 11 < |f| {
        satsUsed := Atoi(f[ns + 11]);
      }
      hasFix := true;
    }
  }

  method ReadFields(line: array<char>, ghost text: string) returns (f: seq<string>)
    requires CStringAt(line[..], 0, text)
    modifies line
    ensures f == Fields(text)
  {
    var starts := SplitInPlace(line, text);
    ghost var all := Fields(text);
    hide CStringAt, Fields;
    f := [];
    while |f| < |starts|
      invariant |f| <= |all| && f == all[..|f|] && FieldsAt(line[..], starts, all, line.Length)
    {
      var field := Text(line, starts[|f|], all[|f|]);
      f := f + [field];
    }
    assert f == all;
  }

  method FindAnchor(f: seq<string>) returns (ns: int)
    ensures ns == Anchor(f, 1)
  {
    ns := -1;
    var i: nat := 1;
    while i + 1 < |f|
      invariant Anchor(f, i) == Anchor(f, 1)
      decreases |f| - i
    {
      if f[i] == "N" || f[i] == "S" {
        ns := i;
        break;
      }
      i := i + 1;
    }
  }

  method SumCounts(f: seq<string>, ns: int) returns (sats: int)
    requires |f| > 1 && ns == Anchor(f, 1)
    ensures sats == Counts(f)
  {
    hide Atoi, Sum;
    sats := 0;
    var upto := if ns >= 2 then ns - 2 else |f| - 1;
    var i: nat := 1;
    SumNone();
    assert f[1..1] == [];
    while i <= upto && i < |f|
      invariant 1 <= i <= upto + 1 && i <= |f|
      invariant sats == Sum(f[1..i])
    {
      SumSnoc(f[1..i], f[i]);
      assert f[1..i + 1] == f[1..i] + [f[i]];
      sats := sats + Atoi(f[i]);
      i := i + 1;
    }
  }

  lemma SumNone()
    ensures Sum([]) == 0
  {
  }

  lemma SumSnoc(fields: seq<string>, last: string)
    ensures Sum(fields + [last]) == Sum(fields) + Atoi(last)
  {
    assert (fields + [last])[..|fields|] == fields;
  }

  // --- Any number of satellite counts ---

  // The fields from latitude to course.
  datatype Report = Report(lat: string, hemi: string, lon: string, ew: string, date: string, time: string,
                           alt: string, speed: string, course: string)

  function Nine(r: Report): seq<string> {
    [r.lat, r.hemi, r.lon, r.ew, r.date, r.time, r.alt, r.speed, r.course]
  }

  function LineOf(mode: string, counts: seq<string>, r: Report, tail: seq<string>): seq<string> {
    [mode] + counts + Nine(r) + tail
  }

  predicate Plain(fields: seq<string>) {
    forall f :: f in fields ==> ',' !in f
  }

  function PositionOf(env: Env, r: Report, hdop: real): Position {
    var lat, lon := CoordToDeg(env, r.lat), CoordToDeg(env, r.lon);
    Position(if r.hemi == "S" then -lat else lat, if r.ew != "" && r.ew[0] == 'W' then -lon else lon,
             env.atof(r.alt), env.atof(r.speed) * 1.852, env.atof(r.course), hdop, Utc(r.date, r.time))
  }

  /** However many satellite-count fields the firmware prints, within 24 fields in all, the line gives the same position
      and exactly the sum of those counts; the previous position plays no part. */
  lemma CountsDoNotMoveThePosition(env: Env, before: Position, mode: string, counts: seq<string>, r: Report,
                                   tail: seq<string>)
    requires Plain(LineOf(mode, counts, r, tail)) && |LineOf(mode, counts, r, tail)| <= 24
    requires r.hemi == "N" || r.hemi == "S"
    requires r.lat != "N" && r.lat != "S" && forall c :: c in counts ==> c != "N" && c != "S"
    ensures var text := Joined(LineOf(mode, counts, r, tail));
            var fix := Parsed(env, before, Fields(text));
            && fix.hasFix && fix.sats == Sum(counts)
            && fix.position == PositionOf(env, r, FieldOr(env, tail, 1))
            && fix.satsUsed == if |tail| > 3 then Atoi(tail[3]) else 0
  {
    hide Sum, Atoi, CoordToDeg, Split, Joined, Anchor, Utc;
    var f := LineOf(mode, counts, r, tail);
    SplitJoined(f);
    assert Fields(Joined(f)) == f;
    hide Fields;
    AnchorOfLine(mode, counts, r, tail);
    LocatedOfLine(env, mode, counts, r, tail);
    FieldPlaces(mode, counts, r, tail);
    assert f[1..|counts| + 1] == counts;
    hide LineOf, Located;
  }

  lemma AnchorOfLine(mode: string, counts: seq<string>, r: Report, tail: seq<string>)
    requires Hemisphere(r.hemi) && !Hemisphere(r.lat) && forall c :: c in counts ==> !Hemisphere(c)
    ensures Anchor(LineOf(mode, counts, r, tail), 1) == |counts| + 2
  {
    var f, ns := LineOf(mode, counts, r, tail), |counts| + 2;
    FieldPlaces(mode, counts, r, tail);
    forall j | 1 <= j < ns ensures !Hemisphere(f[j]) {
      if j < ns - 1 {
        assert f[j - 1 + 1] == counts[j - 1];
      }
    }
    hide LineOf;
    AnchorIs(f, ns);
  }

  lemma LocatedOfLine(env: Env, mode: string, counts: seq<string>, r: Report, tail: seq<string>)
    requires Hemisphere(r.hemi)
    ensures Located(env, LineOf(mode, counts, r, tail), |counts| + 2) == PositionOf(env, r, FieldOr(env, tail, 1))
  {
    hide CoordToDeg, Utc;
    FieldPlaces(mode, counts, r, tail);
    hide LineOf;
  }

  lemma FieldPlaces(mode: string, counts: seq<string>, r: Report, tail: seq<string>)
    ensures var f, k := LineOf(mode, counts, r, tail), |counts| + 1;
            && |f| == k + 9 + |tail|
            && (forall j :: 0 <= j < |counts| ==> f[j + 1] == counts[j])
            && f[k] == r.lat && f[k + 1] == r.hemi && f[k + 2] == r.lon && f[k + 3] == r.ew && f[k + 4] == r.date
            && f[k + 5] == r.time && f[k + 6] == r.alt && f[k + 7] == r.speed && f[k + 8] == r.course
            && (|tail| > 1 ==> f[k + 10] == tail[1]) && (|tail| > 3 ==> f[k + 12] == tail[3])
  {
  }

  // --- Without a fix, and the clock ---

  // A lone N or S with a field for the latitude before it, and seven more fields behind it.
  predicate HasPosition(f: seq<string>, ns: nat) {
    && 2 <= ns && ns + 7 < |f| && (f[ns] == "N" || f[ns] == "S")
    && forall j :: 1 <= j < ns ==> f[j] != "N" && f[j] != "S"
  }

  /** A line has a fix exactly when it has such a field. Without one the position stays as it was, no satellite counts
      as used, and the counts are summed up to the end of the line, or up to a stray N or S. */
  lemma NoFixKeepsThePosition(env: Env, before: Position, f: seq<string>)
    ensures Parsed(env, before, f).hasFix <==> exists ns :: HasPosition(f, ns)
    ensures !Parsed(env, before, f).hasFix ==>
              Parsed(env, before, f).position == before && Parsed(env, before, f).satsUsed == 0
    ensures |f| > 1 && (forall j :: 1 <= j < |f| ==> f[j] != "N" && f[j] != "S") ==>
              Parsed(env, before, f) == Fix(before, false, Sum(f[1..]), 0)
    ensures |f| <= 1 ==> Parsed(env, before, f) == Fix(before, false, 0, 0)
  {
    hide Sum, Atoi, CoordToDeg, Utc;
    var m := Anchor(f, 1);
    if m >= 2 && m + 7 < |f| {
      assert HasPosition(f, m);
    }
    if ns :| HasPosition(f, ns) {
      AnchorIs(f, ns);
    }
    assert |f| > 1 ==> f[1..|f|] == f[1..];
  }

  /** Date ddmmyy and time hhmmss with any fraction become one time stamp of this century; anything else becomes none.
      */
  lemma UtcReads(d: string, m: string, y: string, hh: string, mm: string, ss: string, fraction: string)
    requires |d| == |m| == |y| == |hh| == |mm| == |ss| == 2
    ensures Utc(d + m + y, hh + mm + ss + fraction)
            == "20" + y + "-" + m + "-" + d + " " + hh + ":" + mm + ":" + ss
  {
    var date, time := d + m + y, hh + mm + ss + fraction;
    assert date[..2] == d && date[2..4] == m && date[4..6] == y;
    assert time[..2] == hh && time[2..4] == mm && time[4..6] == ss;
  }

  lemma NoUtc(date: string, time: string)
    ensures Utc(date, time) == "" <==> |date| != 6 || |time| < 6
  {
  }

  // --- Counts as printed ---

  function Decimal(n: nat): string {
    (if n < 10 then "" else Decimal(n / 10)) + [(n % 10 + '0' as int) as char]
  }

  lemma {:induction false} DecimalReads(n: nat)
    ensures Natural(Decimal(n)) == n && Decimal(n) != ""
    ensures forall i :: 0 <= i < |Decimal(n)| ==> '0' <= Decimal(n)[i] <= '9'
  {
    var last := (n % 10 + '0' as int) as char;
    var front := if n < 10 then "" else Decimal(n / 10);
    if n >= 10 {
      DecimalReads(n / 10);
    }
    assert Decimal(n) == front + [last];
    hide Decimal;
    NaturalSnoc(front, last);
  }

  lemma NaturalSnoc(front: string, last: char)
    ensures Natural(front + [last]) == 10 * Natural(front) + (last as int - '0' as int)
  {
    assert (front + [last])[..|front|] == front;
  }

  lemma {:induction false} DigitsUpTo(digits: string, rest: string)
    requires forall i :: 0 <= i < |digits| ==> '0' <= digits[i] <= '9'
    requires rest != "" ==> !('0' <= rest[0] <= '9')
    ensures DigitsAtFront(digits + rest) == |digits|
  {
    if digits == "" {
      assert digits + rest == rest;
    } else {
      assert (digits + rest)[1..] == digits[1..] + rest;
      DigitsUpTo(digits[1..], rest);
    }
  }

  predicate Blank(c: char) {
    c == ' ' || c == '\t' || c == '\n' || c == '\U{000B}' || c == '\U{000C}' || c == '\r'
  }

  lemma {:induction false} BlanksSkip(blanks: string, s: string)
    requires forall i :: 0 <= i < |blanks| ==> Blank(blanks[i])
    requires s != "" && !Blank(s[0])
    ensures SkipBlanks(blanks + s) == s
  {
    if blanks == "" {
      assert blanks + s == s;
    } else {
      assert (blanks + s)[1..] == blanks[1..] + s;
      BlanksSkip(blanks[1..], s);
    }
  }

  /** A count reads back as the number it was printed from, signed or not, whatever blanks come before it and whatever
      follows it. */
  lemma AtoiReadsBack(blanks: string, n: nat, rest: string)
    requires forall i :: 0 <= i < |blanks| ==> Blank(blanks[i])
    requires rest != "" ==> !('0' <= rest[0] <= '9')
    ensures Atoi(blanks + (Decimal(n) + rest)) == n
    ensures Atoi(blanks + ("+" + (Decimal(n) + rest))) == n
    ensures Atoi(blanks + ("-" + (Decimal(n) + rest))) == -(n as int)
  {
    DecimalReads(n);
    var digits := Decimal(n);
    hide Decimal, Natural;
    DigitsUpTo(digits, rest);
    var s := digits + rest;
    assert s[0] == digits[0] && s[..|digits|] == digits;
    assert ("-" + s)[1..] == s && ("+" + s)[1..] == s;
    BlanksSkip(blanks, s);
    BlanksSkip(blanks, "-" + s);
    BlanksSkip(blanks, "+" + s);
    hide DigitsAtFront, SkipBlanks;
  }

  /** Without a digit in front it is 0. */
  lemma AtoiOfNoDigits(s: string)
    requires s == "" || (!Blank(s[0]) && s[0] != '+' && s[0] != '-' && !('0' <= s[0] <= '9'))
    ensures Atoi(s) == 0
  {
  }

  /** Both coordinate formats mean the same place: dd degrees and mm minutes written ddmm.mmmm, or as decimal
      degrees. */
  lemma FormatsAgree(env: Env, nmea: string, decimal: string, deg: nat, minutes: real)
    requires DigitsAtFront(nmea) >= 4 && DigitsAtFront(decimal) < 4 && 0.0 <= minutes < 60.0
    requires env.atof(nmea) == deg as real * 100.0 + minutes
    requires env.atof(decimal) == deg as real + minutes / 60.0
    ensures CoordToDeg(env, nmea) == CoordToDeg(env, decimal) == deg as real + minutes / 60.0
  {
    var q := env.atof(nmea) / 100.0;
    assert q == deg as real + minutes / 100.0;
    assert q.Floor == deg;
  }
}
