/** An independent reader for the JSON grammar of RFC 8259, used only to say what an encoded text means. */
module JsonParser {

  datatype Json =
    | JNull
    | JBool(b: bool)
    | JNumber(token: string)
    | JString(s: string)
    | JArray(elems: seq<Json>)
    | JObject(members: seq<Member>)

  datatype Member = Member(key: string, value: Json)

  datatype Parsed<+T> = Fail | Got(value: T, rest: string)

  // Section 2: insignificant whitespace.
  predicate IsWs(c: char) {
    c == ' ' || c == '\t' || c == '\n' || c == '\r'
  }

  function SkipWs(s: string): (r: string)
    ensures |r| <= |s|
  {
    if s != "" && IsWs(s[0]) then SkipWs(s[1..]) else s
  }

  // Section 6: number = [ minus ] int [ frac ] [ exp ].
  predicate IsDigit(c: char) {
    '0' <= c <= '9'
  }

  predicate IsNumberChar(c: char) {
    IsDigit(c) || c == '-' || c == '+' || c == '.' || c == 'e' || c == 'E'
  }

  function DigitSpan(s: string): (n: nat)
    ensures n <= |s|
  {
    if s != "" && IsDigit(s[0]) then 1 + DigitSpan(s[1..]) else 0
  }

  predicate IsExponent(s: string) {
    s == "" ||
    (&& (s[0] == 'e' || s[0] == 'E')
     && var t := if |s| > 1 && (s[1] == '+' || s[1] == '-') then s[2..] else s[1..];
        0 < DigitSpan(t) == |t|)
  }

  predicate IsFraction(s: string) {
    if s != "" && s[0] == '.' then
      var m := DigitSpan(s[1..]);
      m > 0 && IsExponent(s[1..][m..])
    else
      IsExponent(s)
  }

  predicate IsUnsigned(s: string) {
    var n := DigitSpan(s);
    n > 0 && (s[0] == '0' ==> n == 1) && IsFraction(s[n..])
  }

  predicate IsNumber(s: string) {
    IsUnsigned(if s != "" && s[0] == '-' then s[1..] else s)
  }

  function NumberSpan(s: string): (n: nat)
    ensures n <= |s|
  {
    if s != "" && IsNumberChar(s[0]) then 1 + NumberSpan(s[1..]) else 0
  }

  // Section 7: strings and their escapes, decoded to UTF-8 bytes.
  function HexValue(c: char): (v: int)
    ensures -1 <= v < 16
  {
    if '0' <= c <= '9' then c as int - '0' as int
    else if 'a' <= c <= 'f' then c as int - 'a' as int + 10
    else if 'A' <= c <= 'F' then c as int - 'A' as int + 10
    else -1
  }

  function CodeUnit(s: string): (u: int)
    requires |s| >= 4
    ensures -1 <= u < 0x10000
  {
    var a, b, c, d := HexValue(s[0]), HexValue(s[1]), HexValue(s[2]), HexValue(s[3]);
    if a < 0 || b < 0 || c < 0 || d < 0 then -1 else 0x1000 * a + 0x100 * b + 0x10 * c + d
  }

  function Utf8(code: nat): string
    requires code < 0x110000
  {
    if code < 0x80 then [code as char]
    else if code < 0x800 then [(0xC0 + code / 0x40) as char, (0x80 + code % 0x40) as char]
    else if code < 0x10000 then
      [(0xE0 + code / 0x1000) as char, (0x80 + code / 0x40 % 0x40) as char, (0x80 + code % 0x40) as char]
    else
      [(0xF0 + code / 0x40000) as char, (0x80 + code / 0x1000 % 0x40) as char,
       (0x80 + code / 0x40 % 0x40) as char, (0x80 + code % 0x40) as char]
  }

  function SimpleEscape(c: char): string {
    if c == '"' || c == '\\' || c == '/' then [c]
    else if c == 'b' then "\U{0008}"
    else if c == 'f' then "\U{000C}"
    else if c == 'n' then "\n"
    else if c == 'r' then "\r"
    else if c == 't' then "\t"
    else ""
  }

  // One escape, `s` starting after the backslash.
  function ParseEscape(s: string): (r: Parsed<string>)
    ensures r.Got? ==> |r.rest| < |s|
  {
    if s == "" then Fail
    else if s[0] != 'u' then
      if SimpleEscape(s[0]) == "" then Fail else Got(SimpleEscape(s[0]), s[1..])
    else if |s| < 5 then Fail
    else
      var u := CodeUnit(s[1..5]);
      if u < 0 || 0xDC00 <= u < 0xE000 then Fail
      else if u < 0xD800 || 0xE000 <= u then Got(Utf8(u), s[5..])
      else if |s| < 11 || s[5] != '\\' || s[6] != 'u' then Fail
      else
        var low := CodeUnit(s[7..11]);
        if low < 0xDC00 || 0xE000 <= low then Fail
        else Got(Utf8(0x10000 + (u - 0xD800) * 0x400 + (low - 0xDC00)), s[11..])
  }

  // The characters of a string, `s` starting after the opening quote.
  function ParseChars(s: string): (r: Parsed<string>)
    ensures r.Got? ==> |r.rest| < |s|
    decreases |s|
  {
    if s == "" || s[0] < ' ' then Fail
    else if s[0] == '"' then Got("", s[1..])
    else
      var head := if s[0] == '\\' then ParseEscape(s[1..]) else Got([s[0]], s[1..]);
      if head.Fail? then Fail
      else
        var tail := ParseChars(head.rest);
        if tail.Fail? then Fail else Got(head.value + tail.value, tail.rest)
  }

  // Section 3: the three literal names, or a number.
  function ParseScalar(s: string): (r: Parsed<Json>)
    ensures r.Got? ==> |r.rest| < |s|
  {
    if "null" <= s then Got(JNull, s[4..])
    else if "true" <= s then Got(JBool(true), s[4..])
    else if "false" <= s then Got(JBool(false), s[5..])
    else
      var n := NumberSpan(s);
      if n > 0 && IsNumber(s[..n]) then Got(JNumber(s[..n]), s[n..]) else Fail
  }

  // Sections 3 to 5: values, arrays and objects.
  function ParseValue(text: string): (r: Parsed<Json>)
    ensures r.Got? ==> |r.rest| < |text|
    decreases |text|, 2
  {
    var s := SkipWs(text);
    if s == "" then Fail
    else if s[0] == '"' then
      var p := ParseChars(s[1..]);
      if p.Fail? then Fail else Got(JString(p.value), p.rest)
    else if s[0] == '[' then
      ParseArray(SkipWs(s[1..]))
    else if s[0] == '{' then
      ParseObject(SkipWs(s[1..]))
    else
      ParseScalar(s)
  }

  function ParseArray(s: string): (r: Parsed<Json>)
    ensures r.Got? ==> |r.rest| < |s|
    decreases |s|, 4
  {
    if s != "" && s[0] == ']' then Got(JArray([]), s[1..])
    else
      var p := ParseElements(s);
      if p.Fail? then Fail else Got(JArray(p.value), p.rest)
  }

  function ParseObject(s: string): (r: Parsed<Json>)
    ensures r.Got? ==> |r.rest| < |s|
    decreases |s|, 4
  {
    if s != "" && s[0] == '}' then Got(JObject([]), s[1..])
    else
      var p := ParseMembers(s);
      if p.Fail? then Fail else Got(JObject(p.value), p.rest)
  }

  // One or more elements up to and including the closing bracket.
  function ParseElements(text: string): (r: Parsed<seq<Json>>)
    ensures r.Got? ==> |r.rest| < |text|
    decreases |text|, 3
  {
    var head := ParseValue(text);
    if head.Fail? then Fail
    else
      var s := SkipWs(head.rest);
      if s != "" && s[0] == ']' then Got([head.value], s[1..])
      else if s != "" && s[0] == ',' then
        var tail := ParseElements(s[1..]);
        if tail.Fail? then Fail else Got([head.value] + tail.value, tail.rest)
      else Fail
  }

  // A member name and its colon.
  function ParseKey(text: string): (r: Parsed<string>)
    ensures r.Got? ==> |r.rest| < |text|
  {
    var k := SkipWs(text);
    if k == "" || k[0] != '"' then Fail
    else
      var key := ParseChars(k[1..]);
      if key.Fail? then Fail
      else
        var c := SkipWs(key.rest);
        if c == "" || c[0] != ':' then Fail else Got(key.value, c[1..])
  }

  // One or more members up to and including the closing brace.
  function ParseMembers(text: string): (r: Parsed<seq<Member>>)
    ensures r.Got? ==> |r.rest| < |text|
    decreases |text|, 3
  {
    var key := ParseKey(text);
    if key.Fail? then Fail
    else
      var value := ParseValue(key.rest);
      if value.Fail? then Fail
      else
        var s := SkipWs(value.rest);
        var member := Member(key.value, value.value);
        if s != "" && s[0] == '}' then Got([member], s[1..])
        else if s != "" && s[0] == ',' then
          var tail := ParseMembers(s[1..]);
          if tail.Fail? then Fail else Got([member] + tail.value, tail.rest)
        else Fail
  }

  // Section 2: a JSON text is one value with nothing but whitespace around it.
  function Parse(text: string): Parsed<Json> {
    var p := ParseValue(text);
    if p.Got? && SkipWs(p.rest) == "" then Got(p.value, "") else Fail
  }
}
