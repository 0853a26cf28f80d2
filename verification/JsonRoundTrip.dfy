/** Reading back the encoder's text gives the tree that was written. */
module JsonRoundTrip {
  import opened CJson
  import opened JsonParser
  import opened Texts

  // The JSON value a cJSON tree stands for: everything the encoder cannot express becomes null.
  function Meaning(item: Item): Json {
    match item
    case Absent | Null | Invalid | Unknown => JNull
    case False => JBool(false)
    case True => JBool(true)
    case Number(finite, text) => if finite then JNumber(text) else JNull
    case Text(value) => JString(Deref(value))
    case Raw(value) => JNull
    case Array(child) => JArray(ElementMeanings(child))
    case Object(child) => JObject(MemberMeanings(child))
  }

  function ElementMeanings(nodes: Nodes): seq<Json> {
    if nodes.End? then [] else [Meaning(nodes.item)] + ElementMeanings(nodes.next)
  }

  function MemberMeanings(nodes: Nodes): seq<Member> {
    if nodes.End? then [] else [Member(Deref(nodes.name), Meaning(nodes.item))] + MemberMeanings(nodes.next)
  }

  // No raw fragments, and every finite number was rendered as a JSON number token.
  predicate Expressible(item: Item) {
    match item
    case Number(finite, text) => finite ==> IsNumber(text)
    case Raw(_) => false
    case Array(child) => AllExpressible(child)
    case Object(child) => AllExpressible(child)
    case _ => true
  }

  predicate AllExpressible(nodes: Nodes) {
    nodes.Node? ==> Expressible(nodes.item) && AllExpressible(nodes.next)
  }

  // What may follow a value inside a text: nothing a number token could swallow.
  predicate Delimited(rest: string) {
    rest == "" || !IsNumberChar(rest[0])
  }

  lemma ShortEscapeDecodes(c: char)
    requires EscapeLetter(c) != '\0'
    ensures EscapeLetter(c) != 'u' && SimpleEscape(EscapeLetter(c)) == [c]
  {
  }

  lemma HexDecodes(n: nat)
    requires n < 16
    ensures HexValue(HexDigit(n)) == n
  {
  }

  lemma ControlEscapeDecodes(c: char, t: string)
    requires c < ' ' && EscapeLetter(c) == '\0'
    ensures ParseEscape(EscapeByte(c)[1..] + t) == Got([c], t)
  {
    var n := c as int;
    HexDecodes(0);
    HexDecodes(n / 16);
    HexDecodes(n % 16);
    var digits := ['0', '0', HexDigit(n / 16), HexDigit(n % 16)];
    assert CodeUnit(digits) == n;
    var s := EscapeByte(c)[1..] + t;
    assert s == ['u'] + digits + t;
    assert s[1..5] == digits && s[5..] == t;
  }

  lemma EscapedByteParses(c: char, t: string)
    ensures var tail := ParseChars(t);
            ParseChars(EscapeByte(c) + t) == if tail.Fail? then Fail else Got([c] + tail.value, tail.rest)
  {
    var s := EscapeByte(c) + t;
    if EscapeLetter(c) != '\0' {
      ShortEscapeDecodes(c);
      assert s[1..] == [EscapeLetter(c)] + t;
      assert s[1..][1..] == t;
    } else if c < ' ' {
      ControlEscapeDecodes(c, t);
      assert s[1..] == EscapeByte(c)[1..] + t;
    } else {
      assert s[1..] == t;
    }
  }

  // How the encoder's text splits at its first byte, element or member; `close` is what follows.
  lemma EscapeSplits(s: string, close: string)
    ensures s != "" ==> Escape(s) + close == EscapeByte(s[0]) + (Escape(s[1..]) + close)
  {
  }

  lemma QuoteSplits(s: string, rest: string)
    ensures Quote(s) + rest == "\"" + (Escape(s) + ("\"" + rest))
    ensures (Quote(s) + rest)[1..] == Escape(s) + ("\"" + rest)
  {
  }

  lemma ElementsStart(nodes: Nodes)
    requires nodes.Node?
    ensures Elements(nodes, true) == Encode(nodes.item) + Elements(nodes.next, false)
    ensures Elements(nodes, false) == "," + Elements(nodes, true)
  {
    hide Encode;
    var v, e := Encode(nodes.item), Elements(nodes.next, false);
    NothingBefore(v);
    Regroup(",", v, e);
  }

  lemma ElementsSplit(nodes: Nodes, close: string)
    requires nodes.Node?
    ensures Elements(nodes, true) + close == Encode(nodes.item) + (Elements(nodes.next, false) + close)
    ensures Elements(nodes, false) + close == "," + (Elements(nodes, true) + close)
  {
    ElementsStart(nodes);
    hide Encode, Elements;
    Regroup(Encode(nodes.item), Elements(nodes.next, false), close);
    Regroup(",", Elements(nodes, true), close);
  }

  lemma MemberRegroups(q: string, v: string, m: string, close: string)
    ensures q + ":" + v + m + close == q + (":" + (v + (m + close)))
  {
  }

  lemma MembersStart(nodes: Nodes)
    requires nodes.Node?
    ensures var q, v, m := Quote(Deref(nodes.name)), Encode(nodes.item), Members(nodes.next, false);
            && Members(nodes, true) == q + ":" + v + m
            && Members(nodes, false) == "," + Members(nodes, true)
  {
    hide Encode, Quote;
    var q, v, m := Quote(Deref(nodes.name)), Encode(nodes.item), Members(nodes.next, false);
    NothingBefore(q);
    assert "," + q + ":" + v + m == "," + (q + ":" + v + m);
  }

  lemma MembersSplit(nodes: Nodes, close: string)
    requires nodes.Node?
    ensures Members(nodes, true) + close ==
            Quote(Deref(nodes.name)) + (":" + (Encode(nodes.item) + (Members(nodes.next, false) + close)))
    ensures Members(nodes, false) + close == "," + (Members(nodes, true) + close)
  {
    MembersStart(nodes);
    hide Encode, Quote, Members;
    MemberRegroups(Quote(Deref(nodes.name)), Encode(nodes.item), Members(nodes.next, false), close);
    Regroup(",", Members(nodes, true), close);
  }

  lemma {:induction false} QuotedCharsParse(s: string, rest: string)
    ensures ParseChars(Escape(s) + ("\"" + rest)) == Got(s, rest)
  {
    if s == "" {
      assert Escape(s) + ("\"" + rest) == "\"" + rest;
      assert ("\"" + rest)[1..] == rest;
    } else {
      var t := Escape(s[1..]) + ("\"" + rest);
      QuotedCharsParse(s[1..], rest);
      EscapedByteParses(s[0], t);
      EscapeSplits(s, "\"" + rest);
      assert [s[0]] + s[1..] == s;
    }
  }

  predicate NumberChars(s: string) {
    forall i :: 0 <= i < |s| ==> IsNumberChar(s[i])
  }

  lemma NumberCharsJoin(s: string, k: nat)
    requires k <= |s| && NumberChars(s[..k]) && NumberChars(s[k..])
    ensures NumberChars(s)
  {
    forall i | 0 <= i < |s|
      ensures IsNumberChar(s[i])
    {
      assert s[i] == if i < k then s[..k][i] else s[k..][i - k];
    }
  }

  lemma {:induction false} DigitSpanChars(s: string)
    ensures NumberChars(s[..DigitSpan(s)])
  {
    if s != "" && IsDigit(s[0]) {
      DigitSpanChars(s[1..]);
      var n := DigitSpan(s);
      assert s[..n][1..] == s[1..][..n - 1];
      NumberCharsJoin(s[..n], 1);
    }
  }

  lemma ExponentChars(s: string)
    requires IsExponent(s)
    ensures NumberChars(s)
  {
    if s != "" {
      var k := if |s| > 1 && (s[1] == '+' || s[1] == '-') then 2 else 1;
      DigitSpanChars(s[k..]);
      assert s[k..][..DigitSpan(s[k..])] == s[k..];
      NumberCharsJoin(s, k);
    }
  }

  lemma FractionChars(s: string)
    requires IsFraction(s)
    ensures NumberChars(s)
  {
    if s != "" && s[0] == '.' {
      var t := s[1..];
      DigitSpanChars(t);
      ExponentChars(t[DigitSpan(t)..]);
      NumberCharsJoin(t, DigitSpan(t));
      NumberCharsJoin(s, 1);
    } else {
      ExponentChars(s);
    }
  }

  lemma NumberTokenChars(s: string)
    requires IsNumber(s)
    ensures s != "" && (s[0] == '-' || IsDigit(s[0])) && NumberChars(s)
  {
    var t := if s != "" && s[0] == '-' then s[1..] else s;
    DigitSpanChars(t);
    FractionChars(t[DigitSpan(t)..]);
    NumberCharsJoin(t, DigitSpan(t));
    if t != s {
      NumberCharsJoin(s, 1);
    }
  }

  lemma {:induction false} NumberSpanStops(s: string, rest: string)
    requires NumberChars(s) && Delimited(rest)
    ensures NumberSpan(s + rest) == |s|
  {
    if s == "" {
      assert s + rest == rest;
    } else {
      NumberSpanStops(s[1..], rest);
      assert (s + rest)[1..] == s[1..] + rest;
    }
  }

  // The first byte of a number is none of those of the literal names.
  lemma NumberIsNoName(s: string)
    requires s != "" && (s[0] == '-' || IsDigit(s[0]))
    ensures !("null" <= s) && !("true" <= s) && !("false" <= s)
  {
    assert "null"[0] == 'n' && "true"[0] == 't' && "false"[0] == 'f';
  }

  lemma NumberParses(text: string, rest: string)
    requires IsNumber(text) && Delimited(rest)
    ensures ParseScalar(text + rest) == Got(JNumber(text), rest)
  {
    NumberTokenChars(text);
    NumberSpanStops(text, rest);
    Front(text, rest);
    Parts(text, rest);
    hide IsNumber, NumberSpan, NumberChars;
    NumberIsNoName(text + rest);
  }

  lemma NameParses(rest: string)
    ensures ParseScalar("null" + rest) == Got(JNull, rest)
    ensures ParseScalar("true" + rest) == Got(JBool(true), rest)
    ensures ParseScalar("false" + rest) == Got(JBool(false), rest)
  {
    Parts("null", rest);
    Parts("true", rest);
    Parts("false", rest);
    Front("true", rest);
    Front("false", rest);
    assert !("null" <= "true" + rest) by { assert "null"[0] == 'n'; }
    assert !("null" <= "false" + rest) && !("true" <= "false" + rest) by {
      assert "null"[0] == 'n' && "true"[0] == 't';
    }
  }

  lemma ScalarParses(item: Item, rest: string)
    requires Expressible(item) && !item.Text? && !item.Array? && !item.Object? && Delimited(rest)
    ensures ParseScalar(Encode(item) + rest) == Got(Meaning(item), rest)
  {
    hide ParseScalar, IsNumber, Delimited;
    if item.Number? && item.finite {
      NumberParses(item.text, rest);
    } else {
      NameParses(rest);
    }
  }

  // The first byte of an encoded value is not whitespace and says which production follows.
  lemma EncodeStarts(item: Item, rest: string)
    requires Expressible(item)
    ensures var e := Encode(item);
            && e != "" && SkipWs(e + rest) == e + rest && (e + rest)[0] == e[0] && e[0] != ']' && e[0] != '}'
            && (item.Text? <==> e[0] == '"') && (item.Array? <==> e[0] == '[') && (item.Object? <==> e[0] == '{')
  {
    if item.Number? && item.finite {
      NumberTokenChars(item.text);
    }
  }

  lemma {:induction false} ValueParses(item: Item, rest: string)
    requires Expressible(item) && Delimited(rest)
    ensures ParseValue(Encode(item) + rest) == Got(Meaning(item), rest)
    decreases item, 1
  {
    hide ParseArray, ParseObject, ParseScalar, ParseChars, Escape, Elements, Members, ElementMeanings, MemberMeanings;
    EncodeStarts(item, rest);
    if item.Text? {
      QuoteSplits(Deref(item.value), rest);
      QuotedCharsParse(Deref(item.value), rest);
    } else if item.Array? {
      assert (Encode(item) + rest)[1..] == Elements(item.child, true) + ("]" + rest);
      ArrayParses(item.child, rest);
    } else if item.Object? {
      assert (Encode(item) + rest)[1..] == Members(item.child, true) + ("}" + rest);
      ObjectParses(item.child, rest);
    } else {
      ScalarParses(item, rest);
    }
  }

  lemma {:induction false} ArrayParses(nodes: Nodes, rest: string)
    requires AllExpressible(nodes)
    ensures ParseArray(SkipWs(Elements(nodes, true) + ("]" + rest))) == Got(JArray(ElementMeanings(nodes)), rest)
    decreases nodes, 2
  {
    hide ParseElements, Elements, Encode, ElementMeanings;
    var close := "]" + rest;
    if nodes.End? {
      NoElements(nodes);
      NothingBefore(close);
      Behind(']', rest);
      assert SkipWs(close) == close;
      NoMeanings(nodes);
    } else {
      ElementsSplit(nodes, close);
      EncodeStarts(nodes.item, Elements(nodes.next, false) + close);
      ElementsParse(nodes, rest);
    }
  }

  // What follows an element or member: a comma or a closing bracket, which no value swallows.
  predicate Separated(tail: string) {
    tail != "" && (tail[0] == ',' || tail[0] == ']' || tail[0] == '}')
  }

  lemma SeparatorStands(tail: string)
    requires Separated(tail)
    ensures SkipWs(tail) == tail && Delimited(tail)
  {
  }

  lemma ParsedElement(text: string, head: Json, tail: string, more: Parsed<seq<Json>>)
    requires ParseValue(text) == Got(head, tail) && Separated(tail)
    requires tail[0] == ',' ==> more == ParseElements(tail[1..])
    ensures tail[0] == ']' ==> ParseElements(text) == Got([head], tail[1..])
    ensures tail[0] == ',' && more.Got? ==> ParseElements(text) == Got([head] + more.value, more.rest)
  {
    SeparatorStands(tail);
    hide ParseValue;
  }

  lemma {:induction false} ElementsParse(nodes: Nodes, rest: string)
    requires nodes.Node? && AllExpressible(nodes)
    ensures ParseElements(Elements(nodes, true) + ("]" + rest)) == Got(ElementMeanings(nodes), rest)
    decreases nodes, 1
  {
    hide ParseValue, ParseElements, Encode, Elements, Meaning, SkipWs;
    var close, item, next := "]" + rest, nodes.item, nodes.next;
    var tail := Elements(next, false) + close;
    ElementsSplit(nodes, close);
    Behind(']', rest);
    Behind(',', Elements(next, true) + close);
    if next.Node? {
      ElementsSplit(next, close);
      ElementsParse(next, rest);
      assert tail == "," + (Elements(next, true) + close);
    } else {
      NoElements(next);
      NothingBefore(close);
      NoMeanings(next);
      NothingAfter([Meaning(item)]);
    }
    SeparatorStands(tail);
    ValueParses(item, tail);
    ParsedElement(Elements(nodes, true) + close, Meaning(item), tail, Got(ElementMeanings(next), rest));
  }

  lemma NoElements(nodes: Nodes)
    requires nodes.End?
    ensures forall first :: Elements(nodes, first) == "" && Members(nodes, first) == ""
  {
  }

  lemma {:induction false} ObjectParses(nodes: Nodes, rest: string)
    requires AllExpressible(nodes)
    ensures ParseObject(SkipWs(Members(nodes, true) + ("}" + rest))) == Got(JObject(MemberMeanings(nodes)), rest)
    decreases nodes, 2
  {
    hide ParseMembers, Members, Quote, Encode, MemberMeanings;
    var close := "}" + rest;
    if nodes.End? {
      NoElements(nodes);
      NothingBefore(close);
      Behind('}', rest);
      assert SkipWs(close) == close;
      NoMeanings(nodes);
    } else {
      MembersSplit(nodes, close);
      KeyStands(Deref(nodes.name), ":" + (Encode(nodes.item) + (Members(nodes.next, false) + close)));
      MembersParse(nodes, rest);
    }
  }

  lemma NoMeanings(nodes: Nodes)
    requires nodes.End?
    ensures ElementMeanings(nodes) == [] && MemberMeanings(nodes) == []
  {
  }

  // A quoted key is not white space and not a closing bracket.
  lemma KeyStands(key: string, rest: string)
    ensures var s := Quote(key) + rest; s != "" && s[0] == '"' && SkipWs(s) == s
  {
    QuoteSplits(key, rest);
  }

  lemma KeyParses(key: string, rest: string)
    ensures ParseKey(Quote(key) + (":" + rest)) == Got(key, rest)
  {
    QuoteSplits(key, ":" + rest);
    QuotedCharsParse(key, ":" + rest);
    assert (":" + rest)[1..] == rest;
  }

  lemma ParsedMember(text: string, key: string, mid: string, value: Json, tail: string, more: Parsed<seq<Member>>)
    requires ParseKey(text) == Got(key, mid) && ParseValue(mid) == Got(value, tail) && Separated(tail)
    requires tail[0] == ',' ==> more == ParseMembers(tail[1..])
    ensures tail[0] == '}' ==> ParseMembers(text) == Got([Member(key, value)], tail[1..])
    ensures tail[0] == ',' && more.Got? ==> ParseMembers(text) == Got([Member(key, value)] + more.value, more.rest)
  {
    SeparatorStands(tail);
    hide ParseValue, ParseKey;
  }

  lemma {:induction false} MembersParse(nodes: Nodes, rest: string)
    requires nodes.Node? && AllExpressible(nodes)
    ensures ParseMembers(Members(nodes, true) + ("}" + rest)) == Got(MemberMeanings(nodes), rest)
    decreases nodes, 1
  {
    hide ParseValue, ParseKey, ParseMembers, Encode, Members, Meaning, Quote, Deref, SkipWs;
    var close, item, next := "}" + rest, nodes.item, nodes.next;
    var key, tail := Deref(nodes.name), Members(next, false) + close;
    MembersSplit(nodes, close);
    KeyParses(key, Encode(item) + tail);
    Behind('}', rest);
    Behind(',', Members(next, true) + close);
    if next.Node? {
      MembersSplit(next, close);
      MembersParse(next, rest);
      assert tail == "," + (Members(next, true) + close);
    } else {
      NoElements(next);
      NothingBefore(close);
      NoMeanings(next);
      NothingAfter([Member(key, Meaning(item))]);
    }
    SeparatorStands(tail);
    ValueParses(item, tail);
    ParsedMember(Members(nodes, true) + close, key, Encode(item) + tail, Meaning(item), tail,
                 Got(MemberMeanings(next), rest));
  }

  // Round trip: parsing the encoder's text gives back the tree.
  lemma RoundTrip(item: Item)
    requires Expressible(item)
    ensures Parse(Encode(item)) == Got(Meaning(item), "")
  {
    ValueParses(item, "");
    assert Encode(item) + "" == Encode(item);
  }

  // A raw item passes its text through, so an encoding kept as text reads as the tree it encodes; without text it is
  // null.
  lemma RawReadsAsItsText(item: Item)
    requires Expressible(item)
    ensures Parse(Encode(Raw(Chars(Encode(item))))) == Got(Meaning(item), "")
    ensures Parse(Encode(Raw(NullPointer))) == Got(JNull, "")
  {
    RoundTrip(item);
    RoundTrip(Null);
    hide Parse;
  }

  // Hence the text determines the value: two trees that encode alike mean the same.
  lemma EncodingIsInjective(a: Item, b: Item)
    requires Expressible(a) && Expressible(b) && Encode(a) == Encode(b)
    ensures Meaning(a) == Meaning(b)
  {
    RoundTrip(a);
    RoundTrip(b);
  }
}
