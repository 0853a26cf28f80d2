/** The text-level redactor of the diagnostic journal: a scanner over JSON text that replaces the value of every
    sensitive key, writing into a bounded C buffer. */
module Redact {
  import opened Ascii
  import opened Texts

  const KEYS: seq<string> := [
    "password", "passwd", "passphrase", "psk", "secret", "token",
    "authorization", "username", "mqtt_uri", "broker_uri"
  ]

  const REDACTED: string := "[redacted]"

  // The case-insensitive comparison with each listed key.
  predicate Sensitive(key: string) {
    Lower(key) in KEYS
  }

  // The same letter in either case, where the listed one is lower case.
  predicate SameLetter(c: char, listed: char) {
    c == listed || ('a' <= listed <= 'z' && c as int == listed as int - 32)
  }

  // Of one length, and alike letter by letter.
  predicate SpelledLike(key: string, listed: string) {
    |key| == |listed| && forall i :: 0 <= i < |key| ==> SameLetter(key[i], listed[i])
  }

  predicate IsListedChar(c: char) {
    'a' <= c <= 'z' || c == '_'
  }

  lemma {:induction false} LowerMeansSpelledLike(key: string, listed: string)
    requires forall i :: 0 <= i < |listed| ==> IsListedChar(listed[i])
    ensures Lower(key) == listed <==> SpelledLike(key, listed)
  {
    if key != "" && listed != "" {
      LowerMeansSpelledLike(key[1..], listed[1..]);
      assert Lower(key) == listed <==> LowerChar(key[0]) == listed[0] && Lower(key[1..]) == listed[1..];
      assert SpelledLike(key, listed) ==> SpelledLike(key[1..], listed[1..]);
      assert SameLetter(key[0], listed[0]) && SpelledLike(key[1..], listed[1..]) ==>
          forall i :: 0 <= i < |key| ==> SameLetter(key[i], listed[i]) by {
        if SpelledLike(key[1..], listed[1..]) {
          assert forall i :: 1 <= i < |key| ==> key[i] == key[1..][i - 1] && listed[i] == listed[1..][i - 1];
        }
      }
    }
  }

  lemma ListedKeysAreLower(k: nat)
    requires k < |KEYS|
    ensures forall i :: 0 <= i < |KEYS[k]| ==> IsListedChar(KEYS[k][i])
  {
  }

  // The comparison with each listed key: the length, then every letter whatever its case.
  method SensitiveKey(key: string) returns (found: bool)
    ensures found <==> Sensitive(key)
  {
    var i := 0;
    while i < |KEYS|
      invariant i <= |KEYS| && forall k :: 0 <= k < i ==> KEYS[k] != Lower(key)
    {
      ListedKeysAreLower(i);
      LowerMeansSpelledLike(key, KEYS[i]);
      if SpelledLike(key, KEYS[i]) {
        return true;
      }
      i := i + 1;
    }
    found := false;
  }

  // isspace() of the C locale.
  predicate IsSpace(c: char) {
    c == ' ' || c == '\t' || c == '\n' || c == '\U{000B}' || c == '\U{000C}' || c == '\r'
  }

  // What is left of `s` after its leading white space.
  function SpaceRest(s: string): (r: string)
    ensures |r| <= |s|
  {
    if s != "" && IsSpace(s[0]) then SpaceRest(s[1..]) else s
  }

  // What is left after the closing quote of a string token, `s` starting inside it.
  function CharsRest(s: string): (r: string)
    ensures |r| <= |s|
  {
    if s == "" then ""
    else if s[0] == '\\' && |s| > 1 then CharsRest(s[2..])
    else if s[0] == '"' then s[1..]
    else CharsRest(s[1..])
  }

  function StringRest(s: string): (r: string)
    ensures |r| <= |s| && (s != "" && s[0] == '"' ==> |r| < |s|)
  {
    if s == "" || s[0] != '"' then s else CharsRest(s[1..])
  }

  // What is left of a bracketed value when `depth` brackets of its kind are open before `s`.
  function BlockRest(s: string, opening: char, closing: char, depth: int): (r: string)
    requires s != ""
    ensures |r| <= |s|
    decreases |s|
  {
    var next := if s[0] == '"' then StringRest(s) else s[1..];
    var open := if s[0] == '"' then depth
                else if s[0] == opening then depth + 1
                else if s[0] == closing then depth - 1
                else depth;
    if next == "" || open <= 0 then next else BlockRest(next, opening, closing, open)
  }

  function ScalarRest(s: string): (r: string)
    ensures |r| <= |s|
  {
    if s == "" || s[0] == ',' || s[0] == '}' then s else ScalarRest(s[1..])
  }

  function ValueRest(s: string): (r: string)
    ensures |r| <= |s|
  {
    var t := SpaceRest(s);
    if t == "" then t
    else if t[0] == '"' then StringRest(t)
    else if t[0] == '{' then BlockRest(t, '{', '}', 0)
    else if t[0] == '[' then BlockRest(t, '[', ']', 0)
    else ScalarRest(t)
  }

  // `Refused` when a string token has no closing quote.
  datatype Redaction = Refused | Redacted(text: string)

  function Prepend(s: string, r: Redaction): Redaction {
    if r.Refused? then Refused else Redacted(s + r.text)
  }

  // The part of `s` in front of its suffix `rest`.
  function Before(s: string, rest: string): string
    requires |rest| <= |s|
  {
    s[..|s| - |rest|]
  }

  // The text from an opening quote to what ends the token there; the scanner accepts it when it ends in a quote.
  predicate IsToken(s: string)
    requires s != "" && s[0] == '"'
  {
    var token := Before(s, StringRest(s));
    |token| >= 2 && token[|token| - 1] == '"'
  }

  // A token followed, after white space, by a colon, and holding one of the listed keys.
  predicate IsSensitiveKey(s: string)
    requires s != "" && s[0] == '"' && IsToken(s)
  {
    var token := Before(s, StringRest(s));
    var after := SpaceRest(StringRest(s));
    after != "" && after[0] == ':' && Sensitive(token[1..|token| - 1])
  }

  // Where the value of the member with that key starts.
  function MemberValue(s: string): (r: string)
    requires s != "" && s[0] == '"' && IsToken(s) && IsSensitiveKey(s)
    ensures |r| < |s|
  {
    SpaceRest(SpaceRest(StringRest(s))[1..])
  }

  // The bytes written for the token, or the single byte, at the front of `s`, and what is scanned next.
  function TokenText(s: string): string
    requires s != "" && (s[0] == '"' ==> IsToken(s))
  {
    if s[0] != '"' then s[..1]
    else if !IsSensitiveKey(s) then Before(s, StringRest(s))
    else Before(s, MemberValue(s)) + "\"" + REDACTED + "\""
  }

  function TokenRest(s: string): (r: string)
    requires s != "" && (s[0] == '"' ==> IsToken(s))
    ensures |r| < |s|
  {
    if s[0] != '"' then s[1..]
    else if !IsSensitiveKey(s) then StringRest(s)
    else ValueRest(MemberValue(s))
  }

  // The scanner's output for any input, well-formed or not.
  function Scan(s: string): Redaction
    decreases |s|
  {
    if s == "" then Redacted("")
    else if s[0] == '"' && !IsToken(s) then Refused
    else Prepend(TokenText(s), Scan(TokenRest(s)))
  }

  method SkipString(input: string, start: nat) returns (cursor: nat)
    requires start <= |input|
    ensures start <= cursor <= |input| && input[cursor..] == StringRest(input[start..])
    ensures start < |input| && input[start] == '"' ==> start < cursor
  {
    cursor := start;
    if cursor == |input| || input[cursor] != '"' {
      return;
    }
    cursor := cursor + 1;
    assert input[start..][1..] == input[cursor..];
    while cursor < |input|
      invariant start < cursor <= |input|
      invariant CharsRest(input[cursor..]) == StringRest(input[start..])
    {
      var s := input[cursor..];
      assert s[1..] == input[cursor + 1..] && (|s| > 1 ==> s[2..] == input[cursor + 2..]);
      if input[cursor] == '\\' && cursor + 1 < |input| {
        cursor := cursor + 2;
      } else if input[cursor] == '"' {
        return cursor + 1;
      } else {
        cursor := cursor + 1;
      }
    }
  }

  method SkipSpace(input: string, start: nat) returns (cursor: nat)
    requires start <= |input|
    ensures start <= cursor <= |input| && input[cursor..] == SpaceRest(input[start..])
  {
    cursor := start;
    while cursor < |input| && IsSpace(input[cursor])
      invariant start <= cursor <= |input|
      invariant SpaceRest(input[cursor..]) == SpaceRest(input[start..])
    {
      assert input[cursor..][1..] == input[cursor + 1..];
      cursor := cursor + 1;
    }
  }

  method SkipBlock(input: string, start: nat, opening: char, closing: char) returns (cursor: nat)
    requires start < |input| && input[start] == opening && opening != '"'
    ensures start <= cursor <= |input| && input[cursor..] == BlockRest(input[start..], opening, closing, 0)
  {
    cursor := start;
    var depth := 0;
    var more := true;
    while more
      invariant start <= cursor <= |input|
      invariant more ==> cursor < |input|
      invariant more ==>
                  BlockRest(input[cursor..], opening, closing, depth) == BlockRest(input[start..], opening, closing, 0)
      invariant !more ==> input[cursor..] == BlockRest(input[start..], opening, closing, 0)
      decreases |input| - cursor, more
    {
      assert input[cursor..][1..] == input[cursor + 1..];
      if input[cursor] == '"' {
        cursor := SkipString(input, cursor);
      } else {
        if input[cursor] == opening {
          depth := depth + 1;
        } else if input[cursor] == closing {
          depth := depth - 1;
        }
        cursor := cursor + 1;
      }
      more := cursor < |input| && depth > 0;
    }
  }

  method SkipValue(input: string, start: nat) returns (cursor: nat)
    requires start <= |input|
    ensures start <= cursor <= |input| && input[cursor..] == ValueRest(input[start..])
  {
    cursor := SkipSpace(input, start);
    if cursor < |input| && input[cursor] == '"' {
      cursor := SkipString(input, cursor);
      return;
    }
    if cursor < |input| && (input[cursor] == '{' || input[cursor] == '[') {
      cursor := SkipBlock(input, cursor, input[cursor], if input[cursor] == '{' then '}' else ']');
      return;
    }
    ghost var t := input[cursor..];
    while cursor < |input| && input[cursor] != ',' && input[cursor] != '}'
      invariant start <= cursor <= |input|
      invariant ScalarRest(input[cursor..]) == ScalarRest(t)
    {
      assert input[cursor..][1..] == input[cursor + 1..];
      cursor := cursor + 1;
    }
  }

  // Adds `source` and a terminator when both fit; otherwise changes nothing.
  method AppendBytes(output: array<char>, used: nat, source: string) returns (ok: bool, total: nat)
    requires used < output.Length
    modifies output
    ensures ok <==> used + |source| < output.Length
    ensures ok ==> total == used + |source| && output[..total] == old(output[..used]) + source && output[total] == '\0'
    ensures !ok ==> total == used && output[..] == old(output[..])
  {
    if used + |source| >= output.Length {
      return false, used;
    }
    forall k | 0 <= k < |source| {
      output[used + k] := source[k];
    }
    total := used + |source|;
    assert output[..total] == old(output[..used]) + source;
    output[total] := '\0';
    return true, total;
  }

  lemma PrefixConcat(a: string, b: string, c: string)
    requires a <= b
    ensures a <= b + c
  {
  }

  // Copies a sensitive member up to its value: the key token through the colon, then white space byte by byte.
  method CopyKey(input: string, start: nat, after: nat, output: array<char>, used: nat)
    returns (ok: bool, total: nat, cursor: nat, ghost piece: string)
    requires start <= after < |input| && used < output.Length && output[used] == '\0'
    modifies output
    ensures used <= total < output.Length && output[total] == '\0' && output[..total] == old(output[..used]) + piece
    ensures after < cursor <= |input| && piece <= input[start..cursor]
    ensures |SpaceRest(input[after + 1..])| <= |input| - cursor
    ensures ok ==> piece == input[start..cursor] && input[cursor..] == SpaceRest(input[after + 1..])
    ensures !ok ==> used + (cursor - start) >= output.Length
  {
    ghost var before := output[..used];
    ok, total := AppendBytes(output, used, input[start..after + 1]);
    cursor := after + 1;
    piece := if ok then input[start..cursor] else "";
    while ok && cursor < |input| && IsSpace(input[cursor])
      invariant after < cursor <= |input| && used <= total < output.Length && output[total] == '\0'
      invariant output[..total] == before + piece
      invariant piece <= input[start..cursor]
      invariant SpaceRest(input[cursor..]) == SpaceRest(input[after + 1..])
      invariant ok ==> piece == input[start..cursor]
      invariant !ok ==> used + (cursor - start) >= output.Length
      decreases |input| - cursor
    {
      ok, total := AppendBytes(output, total, input[cursor..cursor + 1]);
      assert input[cursor..][1..] == input[cursor + 1..];
      assert input[start..cursor + 1] == input[start..cursor] + input[cursor..cursor + 1];
      if ok {
        Regroup(before, piece, input[cursor..cursor + 1]);
        PrefixGrows(before, piece, input[cursor..cursor + 1]);
        piece := piece + input[cursor..cursor + 1];
      }
      cursor := cursor + 1;
    }
  }

  // A sensitive member: everything up to its value, then the replacement.
  method CopyMember(input: string, start: nat, after: nat, output: array<char>, used: nat)
    returns (ok: bool, total: nat, cursor: nat, ghost piece: string)
    requires start <= after < |input| && used < output.Length && output[used] == '\0'
    requires var s := input[start..];
             s[0] == '"' && IsToken(s) && IsSensitiveKey(s) && input[after..] == SpaceRest(StringRest(s))
    modifies output
    ensures used <= total < output.Length && output[total] == '\0' && output[..total] == old(output[..used]) + piece
    ensures var s := input[start..];
            && (ok <==> used + |TokenText(s)| < output.Length)
            && piece <= TokenText(s)
            && (ok ==> start < cursor <= |input| && input[cursor..] == TokenRest(s) && piece == TokenText(s))
  {
    hide StringRest, SpaceRest, ValueRest, Sensitive, IsToken, IsSensitiveKey;
    ghost var s := input[start..];
    assert input[after..][1..] == input[after + 1..];
    ok, total, cursor, piece := CopyKey(input, start, after, output, used);
    ghost var key := Before(s, MemberValue(s));
    ghost var mark := "\"" + REDACTED + "\"";
    assert TokenText(s) == key + "\"" + REDACTED + "\"" == key + mark;
    assert input[start..cursor] <= key;
    if !ok {
      PrefixConcat(piece, key, mark);
      return;
    }
    assert piece == key;
    ok, total := AppendBytes(output, total, "\"" + REDACTED + "\"");
    if ok {
      Regroup(old(output[..used]), key, mark);
      PrefixGrows(old(output[..used]), key, mark);
      piece := key + mark;
    }
    cursor := SkipValue(input, cursor);
  }

  lemma CopiedAsIs(s: string)
    requires s != ""
    ensures s[0] != '"' ==> TokenText(s) == s[..1] && TokenRest(s) == s[1..]
    ensures s[0] == '"' && IsToken(s) && !IsSensitiveKey(s) ==>
              TokenText(s) == Before(s, StringRest(s)) && TokenRest(s) == StringRest(s)
  {
  }

  /** One round of the main loop: copies one token, or one byte outside tokens. */
  method CopyToken(input: string, start: nat, output: array<char>, used: nat)
    returns (ok: bool, total: nat, cursor: nat, ghost piece: string)
    requires start < |input| && used < output.Length && output[used] == '\0'
    modifies output
    ensures used <= total < output.Length && output[total] == '\0' && output[..total] == old(output[..used]) + piece
    ensures var s := input[start..];
            if s[0] == '"' && !IsToken(s) then !ok && piece == ""
            else
              && (ok <==> used + |TokenText(s)| < output.Length)
              && piece <= TokenText(s)
              && (ok ==> start < cursor <= |input| && input[cursor..] == TokenRest(s) && piece == TokenText(s))
  {
    hide StringRest, SpaceRest, ValueRest, Sensitive, TokenText, TokenRest;
    ghost var s := input[start..];
    piece := "";
    CopiedAsIs(s);
    if input[start] != '"' {
      assert s[..1] == input[start..start + 1] && s[1..] == input[start + 1..];
      ok, total := AppendBytes(output, used, input[start..start + 1]);
      cursor := start + 1;
      piece := if ok then s[..1] else "";
      return;
    }
    var end := SkipString(input, start);
    assert Before(s, StringRest(s)) == input[start..end];
    if end <= start + 1 || input[end - 1] != '"' {
      return false, used, start, "";
    }
    assert input[start..end][1..end - start - 1] == input[start + 1..end - 1];
    var after := SkipSpace(input, end);
    var hidden := false;
    if after < |input| && input[after] == ':' {
      hidden := SensitiveKey(input[start + 1..end - 1]);
    }
    if !hidden {
      ok, total := AppendBytes(output, used, input[start..end]);
      cursor := end;
      piece := if ok then input[start..end] else "";
      return;
    }
    ok, total, cursor, piece := CopyMember(input, start, after, output, used);
  }

  // How far the redactor has come: `done` is in the buffer, `rest` is still to be scanned.
  ghost predicate Reached(input: string, done: string, rest: string) {
    Scan(input) == Prepend(done, Scan(rest))
  }

  lemma ReachedStart(input: string)
    ensures Reached(input, "", input)
  {
    if Scan(input).Redacted? {
      assert "" + Scan(input).text == Scan(input).text;
    }
  }

  lemma ScanStep(s: string)
    requires s != "" && (s[0] == '"' ==> IsToken(s))
    ensures Scan(s) == Prepend(TokenText(s), Scan(TokenRest(s)))
  {
    hide TokenText, TokenRest, IsToken;
  }

  lemma ReachedNext(input: string, done: string, s: string)
    requires Reached(input, done, s) && s != "" && (s[0] == '"' ==> IsToken(s))
    ensures Reached(input, done + TokenText(s), TokenRest(s))
    ensures Scan(input).Redacted? ==> done + TokenText(s) <= Scan(input).text
  {
    ScanStep(s);
    hide Scan, TokenText, TokenRest, IsToken;
    var next := Scan(TokenRest(s));
    if next.Redacted? {
      Regroup(done, TokenText(s), next.text);
      PrefixGrows(done, TokenText(s), next.text);
    }
  }

  /** Copies `input` to the C buffer `output` with sensitive values replaced. */
  method RedactJson(input: string, output: array<char>) returns (ok: bool)
    modifies output
    ensures ok <==> Scan(input).Redacted? && |Scan(input).text| < output.Length
    ensures ok ==> var n := |Scan(input).text|; output[..n] == Scan(input).text && output[n] == '\0'
    ensures !ok && output.Length > 0 ==>
              exists n :: 0 <= n < output.Length && output[n] == '\0' &&
                          (Scan(input).Redacted? ==> output[..n] <= Scan(input).text)
  {
    hide Scan, TokenText, TokenRest, IsToken, Reached;
    if output.Length == 0 {
      return false;
    }
    output[0] := '\0';
    var used, cursor := 0, 0;
    ReachedStart(input);
    assert input[0..] == input && output[..0] == "";
    while cursor < |input|
      invariant cursor <= |input| && used < output.Length && output[used] == '\0'
      invariant Reached(input, output[..used], input[cursor..])
    {
      ghost var done, s := output[..used], input[cursor..];
      ghost var piece;
      ok, used, cursor, piece := CopyToken(input, cursor, output, used);
      if s[0] == '"' && !IsToken(s) {
        UnterminatedRefused(input, done, s);
      } else {
        ReachedNext(input, done, s);
        assert done + piece <= done + TokenText(s);
      }
      if !ok {
        return;
      }
    }
    assert input[cursor..] == "";
    ReachedEnd(input, output[..used]);
    return true;
  }

  lemma ReachedEnd(input: string, done: string)
    requires Reached(input, done, "")
    ensures Scan(input) == Redacted(done)
  {
    assert done + "" == done;
  }

  lemma UnterminatedRefused(input: string, done: string, s: string)
    requires Reached(input, done, s) && s != "" && s[0] == '"' && !IsToken(s)
    ensures Scan(input).Refused?
  {
  }
}
