/** The text-level redactor agrees with redaction on trees, for every JSON text, whatever its white space. */
module RedactTrees {
  import opened Redact
  import opened Texts

  // A JSON text with its layout: strings keep their raw spelling, and every gap keeps its white space.
  datatype Cst =
    | Scalar(token: string)
    | Quoted(raw: string)
    | List(pad: string, elems: Elems)
    | Dict(pad: string, members: Members)

  datatype Elems = NoElems | Elem(before: string, value: Cst, after: string, more: Elems)

  datatype Members =
    | NoMembers
    | Member(before: string, key: string, mid: string, lead: string, value: Cst, after: string, more: Members)

  predicate Spaces(s: string) {
    forall i :: 0 <= i < |s| ==> IsSpace(s[i])
  }

  // Nothing that opens a string or a bracket, or closes one.
  predicate Plain(s: string) {
    forall i :: 0 <= i < |s| ==> s[i] !in "\"{}[]"
  }

  // The inside of a string token: every quote is escaped and no backslash is left over.
  predicate RawString(s: string) {
    if s == "" then true
    else if s[0] == '\\' then |s| > 1 && RawString(s[2..])
    else s[0] != '"' && RawString(s[1..])
  }

  predicate ScalarToken(s: string) {
    s != "" && Plain(s) && forall i :: 0 <= i < |s| ==> s[i] !in ",:" && !IsSpace(s[i])
  }

  predicate WellFormed(c: Cst) {
    match c
    case Scalar(token) => ScalarToken(token)
    case Quoted(raw) => RawString(raw)
    case List(pad, elems) => Spaces(pad) && ElemsWellFormed(elems)
    case Dict(pad, members) => Spaces(pad) && MembersWellFormed(members)
  }

  predicate ElemsWellFormed(e: Elems) {
    match e
    case NoElems => true
    case Elem(before, value, after, more) =>
      Spaces(before) && WellFormed(value) && Spaces(after) && ElemsWellFormed(more)
  }

  predicate MembersWellFormed(m: Members) {
    match m
    case NoMembers => true
    case Member(before, key, mid, lead, value, after, more) =>
      && Spaces(before) && RawString(key) && Spaces(mid) && Spaces(lead)
      && WellFormed(value) && Spaces(after) && MembersWellFormed(more)
  }

  function StringText(raw: string, rest: string): string {
    "\"" + (raw + ("\"" + rest))
  }

  // The text of a tree with `rest` behind it.
  function Text(c: Cst, rest: string): (s: string)
    ensures WellFormed(c) ==> s != "" && !IsSpace(s[0])
  {
    match c
    case Scalar(token) => token + rest
    case Quoted(raw) => StringText(raw, rest)
    case List(pad, elems) => "[" + (pad + ElemsText(elems, "", "]" + rest))
    case Dict(pad, members) => "{" + (pad + MembersText(members, "", "}" + rest))
  }

  function ElemsText(e: Elems, comma: string, rest: string): string {
    match e
    case NoElems => rest
    case Elem(before, value, after, more) => comma + (before + Text(value, after + ElemsText(more, ",", rest)))
  }

  function MembersText(m: Members, comma: string, rest: string): string {
    match m
    case NoMembers => rest
    case Member(before, key, mid, lead, value, after, more) =>
      comma + (before + StringText(key, mid + (":" + (lead + Text(value, after + MembersText(more, ",", rest))))))
  }

  // Redaction on trees. A replaced scalar takes the white space behind it along.
  function RedactTree(c: Cst): Cst {
    match c
    case Scalar(_) => c
    case Quoted(_) => c
    case List(pad, elems) => List(pad, RedactElems(elems))
    case Dict(pad, members) => Dict(pad, RedactMembers(members))
  }

  function RedactElems(e: Elems): Elems {
    match e
    case NoElems => NoElems
    case Elem(before, value, after, more) => Elem(before, RedactTree(value), after, RedactElems(more))
  }

  function RedactMembers(m: Members): Members {
    match m
    case NoMembers => NoMembers
    case Member(before, key, mid, lead, value, after, more) =>
      if Sensitive(key) then
        Member(before, key, mid, lead, Quoted(REDACTED), if value.Scalar? then "" else after, RedactMembers(more))
      else
        Member(before, key, mid, lead, RedactTree(value), after, RedactMembers(more))
  }

  // The redaction of a tree in front of a redacted rest.
  function Then(c: Cst, r: Redaction): Redaction {
    if r.Refused? then Refused else Redacted(Text(c, r.text))
  }

  function ThenElems(e: Elems, comma: string, r: Redaction): Redaction {
    if r.Refused? then Refused else Redacted(ElemsText(e, comma, r.text))
  }

  function ThenMembers(m: Members, comma: string, r: Redaction): Redaction {
    if r.Refused? then Refused else Redacted(MembersText(m, comma, r.text))
  }

  lemma {:induction false} SpacesSkipped(ws: string, rest: string)
    requires Spaces(ws)
    ensures SpaceRest(ws + rest) == SpaceRest(rest)
  {
    if ws == "" {
      assert ws + rest == rest;
    } else {
      SpacesSkipped(ws[1..], rest);
      assert (ws + rest)[1..] == ws[1..] + rest;
    }
  }

  lemma {:induction false} StringEnds(raw: string, rest: string)
    requires RawString(raw)
    ensures CharsRest(raw + ("\"" + rest)) == rest
  {
    var s := raw + ("\"" + rest);
    if raw == "" {
      assert s == "\"" + rest && s[1..] == rest;
    } else if raw[0] == '\\' {
      StringEnds(raw[2..], rest);
      assert s[2..] == raw[2..] + ("\"" + rest);
    } else {
      StringEnds(raw[1..], rest);
      assert s[1..] == raw[1..] + ("\"" + rest);
    }
  }

  lemma TokenAt(raw: string, rest: string)
    requires RawString(raw)
    ensures var s := StringText(raw, rest);
            StringRest(s) == rest && Before(s, rest) == "\"" + raw + "\"" && IsToken(s)
  {
    StringEnds(raw, rest);
    var s := StringText(raw, rest);
    assert s[1..] == raw + ("\"" + rest);
    assert s == "\"" + raw + "\"" + rest;
  }

  // What the scanner does with text that holds no quote: it copies it.
  lemma {:induction false} PlainCopied(p: string, rest: string)
    requires forall i :: 0 <= i < |p| ==> p[i] != '"'
    ensures Scan(p + rest) == Prepend(p, Scan(rest))
  {
    hide Scan, TokenText, TokenRest;
    var s := p + rest;
    if p == "" {
      assert s == rest;
      assert Scan(rest).Redacted? ==> "" + Scan(rest).text == Scan(rest).text;
    } else {
      ScanStep(s);
      CopiedAsIs(s);
      PlainCopied(p[1..], rest);
      assert s[1..] == p[1..] + rest && s[..1] == p[..1] && p == p[..1] + p[1..];
      if Scan(rest).Redacted? {
        Regroup(p[..1], p[1..], Scan(rest).text);
      }
    }
  }

  predicate NoColon(s: string) {
    var t := SpaceRest(s);
    t == "" || t[0] != ':'
  }

  lemma TokenRejoined(raw: string, rest: string)
    ensures "\"" + raw + "\"" + rest == StringText(raw, rest)
  {
  }

  // A string that is no key, or a key that is not sensitive, is copied as it is.
  lemma StringCopied(raw: string, rest: string)
    requires RawString(raw) && (NoColon(rest) || !Sensitive(raw))
    ensures Scan(StringText(raw, rest)) == Then(Quoted(raw), Scan(rest))
  {
    hide Scan, TokenText, TokenRest, StringRest, SpaceRest, Sensitive, RawString;
    var s := StringText(raw, rest);
    TokenAt(raw, rest);
    var token := "\"" + raw + "\"";
    assert token[1..|token| - 1] == raw;
    assert !IsSensitiveKey(s);
    ScanStep(s);
    CopiedAsIs(s);
    if Scan(rest).Redacted? {
      TokenRejoined(raw, Scan(rest).text);
    }
  }

  // --- The bracket counter skips whole values ---

  // Inside `depth` open brackets, the counter passes over text without brackets or quotes.
  lemma {:induction false} PlainPassed(p: string, rest: string, opening: char, closing: char, depth: int)
    requires Plain(p) && rest != "" && depth > 0 && opening in "{[" && closing in "}]"
    ensures p + rest != "" && BlockRest(p + rest, opening, closing, depth) == BlockRest(rest, opening, closing, depth)
  {
    if p == "" {
      assert p + rest == rest;
    } else {
      PlainPassed(p[1..], rest, opening, closing, depth);
      assert (p + rest)[1..] == p[1..] + rest;
      assert p[0] !in "\"{}[]";
    }
  }

  lemma SpacesArePlain(s: string)
    requires Spaces(s)
    ensures Plain(s) && forall i :: 0 <= i < |s| ==> s[i] !in ",:\""
  {
  }

  lemma StringPassed(raw: string, rest: string, opening: char, closing: char, depth: int)
    requires RawString(raw) && rest != "" && depth > 0 && opening in "{[" && closing in "}]"
    ensures BlockRest(StringText(raw, rest), opening, closing, depth) == BlockRest(rest, opening, closing, depth)
  {
    TokenAt(raw, rest);
  }

  // One bracket that leaves the value open.
  lemma BracketPassed(c: char, rest: string, opening: char, closing: char, depth: int)
    requires rest != "" && c != '"'
    ensures var open := if c == opening then depth + 1 else if c == closing then depth - 1 else depth;
            open > 0 ==> BlockRest([c] + rest, opening, closing, depth) == BlockRest(rest, opening, closing, open)
  {
    assert ([c] + rest)[1..] == rest;
  }

  predicate BracketPair(opening: char, closing: char) {
    (opening == '{' && closing == '}') || (opening == '[' && closing == ']')
  }

  lemma {:induction false} ValuePassed(c: Cst, rest: string, opening: char, closing: char, depth: int)
    requires WellFormed(c) && rest != "" && depth > 0 && BracketPair(opening, closing)
    ensures BlockRest(Text(c, rest), opening, closing, depth) == BlockRest(rest, opening, closing, depth)
    decreases c
  {
    hide BlockRest, RawString;
    match c
    case Scalar(token) =>
      PlainPassed(token, rest, opening, closing, depth);
    case Quoted(raw) =>
      StringPassed(raw, rest, opening, closing, depth);
    case List(pad, elems) =>
      var open := if opening == '[' then depth + 1 else depth;
      var body := ElemsText(elems, "", "]" + rest);
      BracketPassed('[', pad + body, opening, closing, depth);
      ElemsPassed(pad, elems, "", "]" + rest, opening, closing, open);
      BracketPassed(']', rest, opening, closing, open);
    case Dict(pad, members) =>
      var open := if opening == '{' then depth + 1 else depth;
      var body := MembersText(members, "", "}" + rest);
      BracketPassed('{', pad + body, opening, closing, depth);
      MembersPassed(pad, members, "", "}" + rest, opening, closing, open);
      BracketPassed('}', rest, opening, closing, open);
  }

  // The same for a list body behind some white space.
  lemma {:induction false} ElemsPassed(
    pad: string, e: Elems, comma: string, rest: string, opening: char, closing: char, depth: int)
    requires Spaces(pad) && ElemsWellFormed(e) && Plain(comma)
    requires rest != "" && depth > 0 && BracketPair(opening, closing)
    ensures pad + ElemsText(e, comma, rest) != ""
    ensures BlockRest(pad + ElemsText(e, comma, rest), opening, closing, depth)
            == BlockRest(rest, opening, closing, depth)
    decreases e
  {
    hide BlockRest;
    SpacesArePlain(pad);
    match e
    case NoElems =>
      PlainPassed(pad, rest, opening, closing, depth);
    case Elem(before, value, after, more) =>
      var tail := after + ElemsText(more, ",", rest);
      ElemsPassed(after, more, ",", rest, opening, closing, depth);
      ValuePassed(value, tail, opening, closing, depth);
      SpacesArePlain(before);
      PlainPassed(before, Text(value, tail), opening, closing, depth);
      PlainPassed(comma, before + Text(value, tail), opening, closing, depth);
      PlainPassed(pad, comma + (before + Text(value, tail)), opening, closing, depth);
  }

  lemma {:induction false} MembersPassed(
    pad: string, m: Members, comma: string, rest: string, opening: char, closing: char, depth: int)
    requires Spaces(pad) && MembersWellFormed(m) && Plain(comma)
    requires rest != "" && depth > 0 && BracketPair(opening, closing)
    ensures pad + MembersText(m, comma, rest) != ""
    ensures BlockRest(pad + MembersText(m, comma, rest), opening, closing, depth)
            == BlockRest(rest, opening, closing, depth)
    decreases m
  {
    hide BlockRest, RawString;
    SpacesArePlain(pad);
    match m
    case NoMembers =>
      PlainPassed(pad, rest, opening, closing, depth);
    case Member(before, key, mid, lead, value, after, more) =>
      var tail := after + MembersText(more, ",", rest);
      MembersPassed(after, more, ",", rest, opening, closing, depth);
      ValuePassed(value, tail, opening, closing, depth);
      SpacesArePlain(lead);
      var t1 := lead + Text(value, tail);
      PlainPassed(lead, Text(value, tail), opening, closing, depth);
      PlainPassed(":", t1, opening, closing, depth);
      SpacesArePlain(mid);
      var t2 := mid + (":" + t1);
      PlainPassed(mid, ":" + t1, opening, closing, depth);
      StringPassed(key, t2, opening, closing, depth);
      SpacesArePlain(before);
      PlainPassed(before, StringText(key, t2), opening, closing, depth);
      PlainPassed(comma, before + StringText(key, t2), opening, closing, depth);
      PlainPassed(pad, comma + (before + StringText(key, t2)), opening, closing, depth);
  }

  // --- The value of a sensitive key is skipped exactly ---

  lemma BlockCloses(rest: string, opening: char, closing: char)
    requires BracketPair(opening, closing)
    ensures BlockRest([closing] + rest, opening, closing, 1) == rest
  {
    assert ([closing] + rest)[1..] == rest;
  }

  lemma {:induction false} ScalarSkipped(token: string, tail: string)
    requires forall i :: 0 <= i < |token| ==> token[i] !in ",}"
    requires tail != "" && tail[0] in ",}"
    ensures ScalarRest(token + tail) == tail
  {
    if token == "" {
      assert token + tail == tail;
    } else {
      ScalarSkipped(token[1..], tail);
      assert (token + tail)[1..] == token[1..] + tail;
      assert token[0] !in ",}";
    }
  }

  lemma ScalarGapSkipped(token: string, after: string, tail: string)
    requires ScalarToken(token) && Spaces(after) && tail != "" && tail[0] in ",}"
    ensures ValueRest(token + (after + tail)) == tail
  {
    SpacesArePlain(after);
    assert token[0] !in "\"{}[]";
    assert token + (after + tail) == (token + after) + tail;
    ScalarSkipped(token + after, tail);
  }

  lemma ListSkipped(pad: string, elems: Elems, rest: string)
    requires Spaces(pad) && ElemsWellFormed(elems)
    ensures ValueRest(Text(List(pad, elems), rest)) == rest
  {
    hide BlockRest;
    BracketPassed('[', pad + ElemsText(elems, "", "]" + rest), '[', ']', 0);
    ElemsPassed(pad, elems, "", "]" + rest, '[', ']', 1);
    BlockCloses(rest, '[', ']');
  }

  lemma DictSkipped(pad: string, members: Members, rest: string)
    requires Spaces(pad) && MembersWellFormed(members)
    ensures ValueRest(Text(Dict(pad, members), rest)) == rest
  {
    hide BlockRest;
    BracketPassed('{', pad + MembersText(members, "", "}" + rest), '{', '}', 0);
    MembersPassed(pad, members, "", "}" + rest, '{', '}', 1);
    BlockCloses(rest, '{', '}');
  }

  lemma ValueSkipped(value: Cst, after: string, tail: string)
    requires WellFormed(value) && Spaces(after) && tail != "" && tail[0] in ",}"
    ensures ValueRest(Text(value, after + tail)) == if value.Scalar? then tail else after + tail
  {
    match value
    case Scalar(token) => ScalarGapSkipped(token, after, tail);
    case Quoted(raw) => TokenAt(raw, after + tail);
    case List(pad, elems) => ListSkipped(pad, elems, after + tail);
    case Dict(pad, members) => DictSkipped(pad, members, after + tail);
  }

  // The text of a sensitive member from its key on.
  function KeyedText(key: string, mid: string, lead: string, value: string): string {
    StringText(key, mid + (":" + (lead + value)))
  }

  lemma KeyRejoined(key: string, mid: string, lead: string, value: string)
    ensures KeyedText(key, mid, lead, value) == "\"" + key + "\"" + mid + ":" + lead + value
  {
  }

  lemma KeyedValueStarts(key: string, mid: string, lead: string, value: string)
    requires RawString(key) && Spaces(mid) && Spaces(lead) && Sensitive(key) && value != "" && !IsSpace(value[0])
    ensures var s := KeyedText(key, mid, lead, value);
            && IsToken(s) && IsSensitiveKey(s) && MemberValue(s) == value
            && Before(s, value) == "\"" + key + "\"" + mid + ":" + lead
  {
    hide RawString, Sensitive, StringRest;
    var s := KeyedText(key, mid, lead, value);
    var rest := mid + (":" + (lead + value));
    TokenAt(key, rest);
    var token := "\"" + key + "\"";
    assert token[1..|token| - 1] == key;
    SpacesSkipped(mid, ":" + (lead + value));
    assert (":" + (lead + value))[1..] == lead + value;
    SpacesSkipped(lead, value);
    KeyRejoined(key, mid, lead, value);
  }

  lemma SensitiveReplaced(key: string, mid: string, lead: string, value: Cst, after: string, tail: string)
    requires RawString(key) && Spaces(mid) && Spaces(lead) && Sensitive(key)
    requires WellFormed(value) && Spaces(after) && tail != "" && tail[0] in ",}"
    ensures var gap := if value.Scalar? then "" else after;
            var r := Scan(tail);
            Scan(KeyedText(key, mid, lead, Text(value, after + tail))) ==
            if r.Refused? then Refused else Redacted(KeyedText(key, mid, lead, StringText(REDACTED, gap + r.text)))
  {
    hide Scan, TokenRest, ValueRest, RawString, Sensitive, IsToken, IsSensitiveKey;
    hide MemberValue, KeyedText, Text, StringText;
    var v := Text(value, after + tail);
    var s := KeyedText(key, mid, lead, v);
    KeyedValueStarts(key, mid, lead, v);
    KeyRejoined(key, mid, lead, v);
    ScanStep(s);
    TokenRestOfKey(s);
    ValueSkipped(value, after, tail);
    SpacesArePlain(after);
    PlainCopied(after, tail);
    var r := Scan(tail);
    if r.Redacted? {
      var gap := if value.Scalar? then "" else after;
      assert "" + r.text == r.text;
      TokenRejoined(REDACTED, gap + r.text);
      KeyRejoined(key, mid, lead, StringText(REDACTED, gap + r.text));
      var head := "\"" + key + "\"" + mid + ":" + lead;
      assert head + "\"" + REDACTED + "\"" + (gap + r.text) == head + ("\"" + REDACTED + "\"" + (gap + r.text));
    }
  }

  lemma TokenRestOfKey(s: string)
    requires s != "" && s[0] == '"' && IsToken(s) && IsSensitiveKey(s)
    ensures TokenRest(s) == ValueRest(MemberValue(s))
  {
  }

  // --- The main result ---

  lemma NoColonAfter(gap: string, tail: string)
    requires Spaces(gap) && (tail == "" || tail[0] in ",}]")
    ensures NoColon(gap + tail)
  {
    SpacesSkipped(gap, tail);
  }

  // The scanner's output in front of any rest that is no colon is the text of the redacted tree.
  lemma {:induction false} TreeRedacted(c: Cst, rest: string)
    requires WellFormed(c) && NoColon(rest)
    ensures Scan(Text(c, rest)) == Then(RedactTree(c), Scan(rest))
    decreases c, 0
  {
    hide Scan, RawString, Spaces;
    match c
    case Scalar(token) =>
      PlainCopied(token, rest);
    case Quoted(raw) =>
      StringCopied(raw, rest);
    case List(pad, elems) =>
      var body := ElemsText(elems, "", "]" + rest);
      PlainCopied("[", pad + body);
      SpacesArePlain(pad);
      PlainCopied(pad, body);
      ElemsRedacted(elems, "", "]" + rest);
      PlainCopied("]", rest);
    case Dict(pad, members) =>
      var body := MembersText(members, "", "}" + rest);
      PlainCopied("{", pad + body);
      SpacesArePlain(pad);
      PlainCopied(pad, body);
      MembersRedacted(members, "", "}" + rest);
      PlainCopied("}", rest);
  }

  lemma {:induction false} ElemsRedacted(e: Elems, comma: string, rest: string)
    requires ElemsWellFormed(e) && (comma == "" || comma == ",") && rest != "" && rest[0] == ']'
    ensures Scan(ElemsText(e, comma, rest)) == ThenElems(RedactElems(e), comma, Scan(rest))
    decreases e
  {
    hide Scan, RawString, Spaces;
    match e
    case NoElems =>
    case Elem(before, value, after, more) =>
      var tail := ElemsText(more, ",", rest);
      ElemsRedacted(more, ",", rest);
      SpacesArePlain(after);
      PlainCopied(after, tail);
      NoColonAfter(after, tail);
      TreeRedacted(value, after + tail);
      SpacesArePlain(before);
      PlainCopied(before, Text(value, after + tail));
      PlainCopied(comma, before + Text(value, after + tail));
  }

  lemma {:induction false} MembersRedacted(m: Members, comma: string, rest: string)
    requires MembersWellFormed(m) && (comma == "" || comma == ",") && rest != "" && rest[0] == '}'
    ensures Scan(MembersText(m, comma, rest)) == ThenMembers(RedactMembers(m), comma, Scan(rest))
    decreases m
  {
    hide Scan, RawString, Spaces, Sensitive;
    match m
    case NoMembers =>
    case Member(before, key, mid, lead, value, after, more) =>
      var tail := MembersText(more, ",", rest);
      MembersRedacted(more, ",", rest);
      var v := Text(value, after + tail);
      var keyed := KeyedText(key, mid, lead, v);
      if Sensitive(key) {
        SensitiveReplaced(key, mid, lead, value, after, tail);
      } else {
        MemberCopied(key, mid, lead, value, after, tail);
      }
      SpacesArePlain(before);
      PlainCopied(before, keyed);
      PlainCopied(comma, before + keyed);
      var r := Scan(rest);
      if r.Redacted? {
        var redacted := MembersText(RedactMembers(more), ",", r.text);
        assert Scan(tail) == Redacted(redacted);
        if Sensitive(key) {
          var gap := if value.Scalar? then "" else after;
          assert Scan(keyed) == Redacted(KeyedText(key, mid, lead, StringText(REDACTED, gap + redacted)));
          assert RedactMembers(m) == Member(before, key, mid, lead, Quoted(REDACTED), gap, RedactMembers(more));
          assert Text(Quoted(REDACTED), gap + redacted) == StringText(REDACTED, gap + redacted);
          assert Scan(comma + (before + keyed)).text == MembersText(RedactMembers(m), comma, r.text);
        } else {
          assert Scan(keyed) == Redacted(KeyedText(key, mid, lead, Text(RedactTree(value), after + redacted)));
          assert RedactMembers(m) == Member(before, key, mid, lead, RedactTree(value), after, RedactMembers(more));
        }
      }
  }

  // One member whose key is not listed.
  lemma {:induction false} MemberCopied(key: string, mid: string, lead: string, value: Cst, after: string, tail: string)
    requires RawString(key) && Spaces(mid) && Spaces(lead) && !Sensitive(key)
    requires WellFormed(value) && Spaces(after) && tail != "" && tail[0] in ",}"
    ensures var r := Scan(tail);
            Scan(KeyedText(key, mid, lead, Text(value, after + tail))) ==
            if r.Refused? then Refused
            else Redacted(KeyedText(key, mid, lead, Text(RedactTree(value), after + r.text)))
    decreases value, 1
  {
    hide Scan, RawString, Spaces, Sensitive;
    var v := Text(value, after + tail);
    SpacesArePlain(after);
    PlainCopied(after, tail);
    NoColonAfter(after, tail);
    TreeRedacted(value, after + tail);
    SpacesArePlain(lead);
    PlainCopied(lead, v);
    PlainCopied(":", lead + v);
    SpacesArePlain(mid);
    PlainCopied(mid, ":" + (lead + v));
    StringCopied(key, mid + (":" + (lead + v)));
  }

  /** Redacting the text is redacting the tree, for every JSON text. */
  lemma TextRedactionIsTreeRedaction(before: string, c: Cst, after: string)
    requires WellFormed(c) && Spaces(before) && Spaces(after)
    ensures Scan(before + Text(c, after)) == Redacted(before + Text(RedactTree(c), after))
  {
    hide Scan, Text, WellFormed;
    SpacesArePlain(before);
    SpacesArePlain(after);
    PlainCopied(after, "");
    NoColonAfter(after, "");
    assert after + "" == after && ScanEmpty() == Redacted("");
    TreeRedacted(c, after);
    PlainCopied(before, Text(c, after));
  }

  function ScanEmpty(): (r: Redaction)
    ensures r == Scan("")
  {
    Redacted("")
  }

  // --- A string that never ends ---

  lemma {:induction false} NoQuoteEndsIt(raw: string)
    requires RawString(raw)
    ensures CharsRest(raw) == ""
    decreases |raw|
  {
    if raw == "" {
    } else if raw[0] == '\\' {
      NoQuoteEndsIt(raw[2..]);
    } else {
      NoQuoteEndsIt(raw[1..]);
    }
  }

  lemma WholeRestIsToken(raw: string)
    requires RawString(raw)
    ensures StringRest("\"" + raw) == ""
    ensures IsToken("\"" + raw) <==> raw != "" && raw[|raw| - 1] == '"'
  {
    var s := "\"" + raw;
    assert s[1..] == raw;
    NoQuoteEndsIt(raw);
    hide CharsRest, RawString;
    assert Before(s, "") == s;
    assert raw != "" ==> s[|s| - 1] == raw[|raw| - 1];
  }

  /** Text that stops inside a string is refused, unless its last byte is an escaped quote, which then passes for the
      closing one. */
  lemma UnterminatedIsRefusedIff(raw: string)
    requires RawString(raw)
    ensures Scan("\"" + raw) == Refused <==> raw == "" || raw[|raw| - 1] != '"'
  {
    WholeRestIsToken(raw);
    var s := "\"" + raw;
    hide IsToken, StringRest, RawString, Sensitive, TokenText;
    assert Scan("") == Redacted("") && SpaceRest("") == "";
    assert s != "" && s[0] == '"';
    assert IsToken(s) ==> !IsSensitiveKey(s) && TokenRest(s) == "";
  }
}
