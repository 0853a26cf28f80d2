/** Redacting an encoded cJSON tree, end to end: what a reader parses is the redacted tree, and the host tool that
    checks journals accepts it. */
module RedactedDetails {
  import opened CJson
  import opened JsonParser
  import opened JsonRoundTrip
  import opened Ascii
  import Redact
  import T = RedactTrees

  // The layout the encoder produces: no white space anywhere.
  function Layout(item: Item): T.Cst {
    match item
    case Text(value) => T.Quoted(Escape(Deref(value)))
    case Array(child) => T.List("", ElemsLayout(child))
    case Object(child) => T.Dict("", MembersLayout(child))
    case _ => T.Scalar(Encode(item))
  }

  function ElemsLayout(nodes: Nodes): T.Elems {
    if nodes.End? then T.NoElems else T.Elem("", Layout(nodes.item), "", ElemsLayout(nodes.next))
  }

  function MembersLayout(nodes: Nodes): T.Members {
    if nodes.End? then T.NoMembers
    else T.Member("", Escape(Deref(nodes.name)), "", "", Layout(nodes.item), "", MembersLayout(nodes.next))
  }

  // Redaction of a cJSON tree and of a parsed JSON value.
  function RedactItem(item: Item): Item {
    match item
    case Array(child) => Array(RedactElements(child))
    case Object(child) => Object(RedactMembers(child))
    case _ => item
  }

  function RedactElements(nodes: Nodes): Nodes {
    if nodes.End? then End else Node(nodes.name, RedactItem(nodes.item), RedactElements(nodes.next))
  }

  function RedactMembers(nodes: Nodes): Nodes {
    if nodes.End? then End
    else
      var hidden := Redact.Sensitive(Deref(nodes.name));
      Node(nodes.name, if hidden then Text(Chars(Redact.REDACTED)) else RedactItem(nodes.item),
           RedactMembers(nodes.next))
  }

  function RedactValue(j: Json): Json {
    match j
    case JArray(elems) => JArray(RedactValues(elems))
    case JObject(members) => JObject(RedactPairs(members))
    case _ => j
  }

  function RedactValues(elems: seq<Json>): seq<Json> {
    if elems == [] then [] else [RedactValue(elems[0])] + RedactValues(elems[1..])
  }

  function RedactPairs(members: seq<Member>): seq<Member> {
    if members == [] then []
    else
      var m := members[0];
      [Member(m.key, if Redact.Sensitive(m.key) then JString(Redact.REDACTED) else RedactValue(m.value))] +
      RedactPairs(members[1..])
  }

  // --- The journal reader's own check ---

  const READER_KEYS: set<string> := {
    "password", "passwd", "passphrase", "psk", "secret", "token",
    "authorization", "username", "mqtt_uri", "broker_uri"
  }

  // U+212A, the Kelvin sign, whose lower case is a plain k. No other character beyond ASCII turns into one of the list.
  const KELVIN: string := "\U{00E2}\U{0084}\U{00AA}"

  // The reader decodes a key and turns it to lower case; the result is the listed key.
  predicate ReadsAs(key: string, listed: string)
    decreases |listed|
  {
    if listed == "" then key == ""
    else
      || (key != "" && Redact.SameLetter(key[0], listed[0]) && ReadsAs(key[1..], listed[1..]))
      || (listed[0] == 'k' && KELVIN <= key && ReadsAs(key[|KELVIN|..], listed[1..]))
  }

  predicate ReaderHides(key: string) {
    exists listed :: listed in READER_KEYS && ReadsAs(key, listed)
  }

  // The reader raises an error where this predicate is false.
  predicate AssertRedacted(j: Json) {
    match j
    case JArray(elems) => forall i :: 0 <= i < |elems| ==> AssertRedacted(elems[i])
    case JObject(members) =>
      forall i :: 0 <= i < |members| ==>
                    && (ReaderHides(members[i].key) ==> members[i].value == JString("[redacted]"))
                    && AssertRedacted(members[i].value)
    case _ => true
  }

  lemma SameLists(listed: string)
    ensures listed in READER_KEYS <==> listed in Redact.KEYS
  {
  }

  // Which keys the redactor takes for listed ones: those that are one, up to the case of ASCII letters.
  lemma SensitiveMeansSpelledLike(key: string)
    ensures Redact.Sensitive(key) <==> exists listed :: listed in READER_KEYS && Redact.SpelledLike(key, listed)
  {
    hide Redact.SpelledLike, Lower, READER_KEYS, Redact.KEYS;
    forall listed | listed in READER_KEYS
      ensures Lower(key) == listed <==> Redact.SpelledLike(key, listed)
    {
      SameLists(listed);
      var k: nat :| k < |Redact.KEYS| && Redact.KEYS[k] == listed;
      Redact.ListedKeysAreLower(k);
      Redact.LowerMeansSpelledLike(key, listed);
    }
    SameLists(Lower(key));
  }

  lemma {:induction false} SpelledReads(key: string, listed: string)
    requires Redact.SpelledLike(key, listed)
    ensures ReadsAs(key, listed)
  {
    if listed != "" {
      SpelledReads(key[1..], listed[1..]);
    }
  }

  predicate AsciiOnly(key: string) {
    forall i :: 0 <= i < |key| ==> key[i] < '\U{0080}'
  }

  lemma KelvinIsNotAscii(key: string)
    requires AsciiOnly(key)
    ensures !(KELVIN <= key)
  {
    assert key != "" ==> key[0] != KELVIN[0];
  }

  lemma {:induction false} AsciiReadsAsSpelled(key: string, listed: string)
    requires AsciiOnly(key) && ReadsAs(key, listed)
    ensures Redact.SpelledLike(key, listed)
    decreases |listed|
  {
    if listed != "" {
      KelvinIsNotAscii(key);
      AsciiReadsAsSpelled(key[1..], listed[1..]);
    }
  }

  /** The reader takes every key for listed that the redactor does, and of the ASCII keys no other. */
  lemma ReaderHidesWhatIsSensitive(key: string)
    ensures Redact.Sensitive(key) ==> ReaderHides(key)
    ensures AsciiOnly(key) ==> (ReaderHides(key) <==> Redact.Sensitive(key))
  {
    SensitiveMeansSpelledLike(key);
    if Redact.Sensitive(key) {
      var listed :| listed in READER_KEYS && Redact.SpelledLike(key, listed);
      SpelledReads(key, listed);
    }
    if AsciiOnly(key) && ReaderHides(key) {
      var listed :| listed in READER_KEYS && ReadsAs(key, listed);
      AsciiReadsAsSpelled(key, listed);
    }
  }

  // --- Keys are compared by their spelling, and the encoder spells a listed key without escapes ---

  predicate IsWordChar(c: char) {
    'a' <= LowerChar(c) <= 'z' || c == '_'
  }

  lemma {:induction false} LowerMembers(s: string, c: char)
    requires c in s
    ensures LowerChar(c) in Lower(s)
  {
    if c != s[0] {
      LowerMembers(s[1..], c);
    }
  }

  lemma ListedKeysAreWords(key: string, c: char)
    requires key in Redact.KEYS && c in key
    ensures 'a' <= c <= 'z' || c == '_'
  {
  }

  lemma SensitiveKeysAreWords(key: string)
    requires Redact.Sensitive(key)
    ensures forall c :: c in key ==> IsWordChar(c)
  {
    forall c | c in key
      ensures IsWordChar(c)
    {
      LowerMembers(key, c);
      ListedKeysAreWords(Lower(key), LowerChar(c));
    }
  }

  lemma WordCharIsPlain(c: char)
    requires IsWordChar(c)
    ensures EscapeByte(c) == [c]
  {
  }

  lemma {:induction false} PlainIsUnescaped(s: string)
    requires forall c :: c in s ==> EscapeByte(c) == [c]
    ensures Escape(s) == s
  {
    hide EscapeByte;
    if s != "" {
      assert s[0] in s && s == [s[0]] + s[1..];
      PlainIsUnescaped(s[1..]);
    }
  }

  lemma {:induction false} EscapesShow(s: string)
    requires '\\' !in Escape(s)
    ensures Escape(s) == s
  {
    if s != "" {
      assert Escape(s) == EscapeByte(s[0]) + Escape(s[1..]);
      EscapesShow(s[1..]);
      assert EscapeByte(s[0]) == [s[0]] by {
        assert EscapeByte(s[0])[0] in Escape(s);
      }
      assert s == [s[0]] + s[1..];
    }
  }

  lemma EscapedKeySensitivity(key: string)
    ensures Redact.Sensitive(Escape(key)) <==> Redact.Sensitive(key)
  {
    if Redact.Sensitive(key) {
      SensitiveKeysAreWords(key);
      forall c | c in key { WordCharIsPlain(c); }
      PlainIsUnescaped(key);
    } else if Redact.Sensitive(Escape(key)) {
      SensitiveKeysAreWords(Escape(key));
      EscapesShow(key);
    }
  }

  // --- The encoder's text is the compact layout ---

  lemma HexIsPlain(n: nat)
    requires n < 16
    ensures HexDigit(n) != '"' && HexDigit(n) != '\\'
  {
  }

  lemma RawCons(c: char, rest: string)
    requires T.RawString(rest) && c != '"' && c != '\\'
    ensures T.RawString([c] + rest)
  {
    assert ([c] + rest)[1..] == rest;
  }

  lemma RawEscape(c: char, rest: string)
    requires T.RawString(rest)
    ensures T.RawString(['\\', c] + rest)
  {
    assert (['\\', c] + rest)[2..] == rest;
  }

  lemma EscapedByteIsRaw(c: char, rest: string)
    requires T.RawString(rest)
    ensures T.RawString(EscapeByte(c) + rest)
  {
    hide T.RawString;
    if EscapeLetter(c) != '\0' {
      RawEscape(EscapeLetter(c), rest);
    } else if c < ' ' {
      var h, l := HexDigit(c as int / 16), HexDigit(c as int % 16);
      HexIsPlain(c as int / 16);
      HexIsPlain(c as int % 16);
      RawCons(l, rest);
      RawCons(h, [l] + rest);
      RawCons('0', [h] + ([l] + rest));
      RawCons('0', ['0'] + ([h] + ([l] + rest)));
      RawEscape('u', ['0'] + (['0'] + ([h] + ([l] + rest))));
      assert EscapeByte(c) + rest == ['\\', 'u'] + (['0'] + (['0'] + ([h] + ([l] + rest))));
    } else {
      RawCons(c, rest);
    }
  }

  lemma {:induction false} EscapedIsRaw(s: string)
    ensures T.RawString(Escape(s))
  {
    if s != "" {
      EscapedIsRaw(s[1..]);
      EscapedByteIsRaw(s[0], Escape(s[1..]));
    }
  }

  lemma NumberTokensAreScalars(token: string)
    requires IsNumber(token)
    ensures T.ScalarToken(token)
  {
    NumberTokenChars(token);
    forall i | 0 <= i < |token|
      ensures token[i] !in "\"{}[],:" && !Redact.IsSpace(token[i])
    {
      assert IsNumberChar(token[i]);
    }
  }

  lemma NamesAreScalars()
    ensures T.ScalarToken("null") && T.ScalarToken("true") && T.ScalarToken("false")
  {
  }

  lemma {:induction false} LayoutWellFormed(item: Item)
    requires Expressible(item)
    ensures T.WellFormed(Layout(item))
    decreases item, 0
  {
    hide T.ScalarToken, T.RawString, IsNumber, Escape;
    NamesAreScalars();
    match item
    case Text(value) => EscapedIsRaw(Deref(value));
    case Array(child) => ElemsLayoutWellFormed(child);
    case Object(child) => MembersLayoutWellFormed(child);
    case Number(finite, text) => if finite { NumberTokensAreScalars(text); }
    case _ =>
  }

  lemma {:induction false} ElemsLayoutWellFormed(nodes: Nodes)
    requires AllExpressible(nodes)
    ensures T.ElemsWellFormed(ElemsLayout(nodes))
    decreases nodes, 1
  {
    if nodes.Node? {
      LayoutWellFormed(nodes.item);
      ElemsLayoutWellFormed(nodes.next);
    }
  }

  lemma {:induction false} MembersLayoutWellFormed(nodes: Nodes)
    requires AllExpressible(nodes)
    ensures T.MembersWellFormed(MembersLayout(nodes))
    decreases nodes, 1
  {
    if nodes.Node? {
      EscapedIsRaw(Deref(nodes.name));
      LayoutWellFormed(nodes.item);
      MembersLayoutWellFormed(nodes.next);
    }
  }

  lemma BodyRegroups(open: string, body: string, close: string, rest: string)
    ensures open + body + close + rest == open + ("" + (body + (close + rest)))
  {
  }

  lemma {:induction false} EncodeIsLayout(item: Item, rest: string)
    ensures Encode(item) + rest == T.Text(Layout(item), rest)
    decreases item, 0
  {
    hide Escape, Elements, Members, ElemsLayout, MembersLayout;
    if item.Text? {
      QuoteSplits(Deref(item.value), rest);
    } else if item.Array? {
      var body := Elements(item.child, true);
      ElementsAreLayout(item.child, "]" + rest);
      BodyRegroups("[", body, "]", rest);
    } else if item.Object? {
      var body := Members(item.child, true);
      MembersAreLayout(item.child, "}" + rest);
      BodyRegroups("{", body, "}", rest);
    }
  }

  lemma {:induction false} ElementsAreLayout(nodes: Nodes, rest: string)
    ensures Elements(nodes, true) + rest == T.ElemsText(ElemsLayout(nodes), "", rest)
    ensures Elements(nodes, false) + rest == T.ElemsText(ElemsLayout(nodes), ",", rest)
    decreases nodes, 1
  {
    hide Encode, Layout, T.Text;
    if nodes.Node? {
      ElementsSplit(nodes, rest);
      ElementsAreLayout(nodes.next, rest);
      var tail := Elements(nodes.next, false) + rest;
      EncodeIsLayout(nodes.item, tail);
      assert "" + tail == tail;
      var text := T.Text(Layout(nodes.item), tail);
      assert "" + text == text && "" + ("" + text) == text;
    }
  }

  lemma {:induction false} MembersAreLayout(nodes: Nodes, rest: string)
    ensures Members(nodes, true) + rest == T.MembersText(MembersLayout(nodes), "", rest)
    ensures Members(nodes, false) + rest == T.MembersText(MembersLayout(nodes), ",", rest)
    decreases nodes, 1
  {
    hide Encode, Layout, T.Text;
    if nodes.Node? {
      MembersSplit(nodes, rest);
      MembersAreLayout(nodes.next, rest);
      var tail := Members(nodes.next, false) + rest;
      EncodeIsLayout(nodes.item, tail);
      assert "" + tail == tail;
      var value := T.Text(Layout(nodes.item), tail);
      assert "" + value == value;
      QuoteSplits(Deref(nodes.name), ":" + value);
      var text := T.StringText(Escape(Deref(nodes.name)), ":" + value);
      assert "" + (":" + value) == ":" + value;
      assert "" + text == text && "" + ("" + text) == text;
    }
  }

  // --- Redaction commutes with layout and with meaning ---

  lemma {:induction false} RedactedLayout(item: Item)
    ensures Layout(RedactItem(item)) == T.RedactTree(Layout(item))
    decreases item, 0
  {
    match item
    case Array(child) => RedactedElemsLayout(child);
    case Object(child) => RedactedMembersLayout(child);
    case _ =>
  }

  lemma {:induction false} RedactedElemsLayout(nodes: Nodes)
    ensures ElemsLayout(RedactElements(nodes)) == T.RedactElems(ElemsLayout(nodes))
    decreases nodes, 1
  {
    if nodes.Node? {
      RedactedLayout(nodes.item);
      RedactedElemsLayout(nodes.next);
    }
  }

  lemma {:induction false} RedactedMembersLayout(nodes: Nodes)
    ensures MembersLayout(RedactMembers(nodes)) == T.RedactMembers(MembersLayout(nodes))
    decreases nodes, 1
  {
    hide Redact.Sensitive, Escape;
    if nodes.Node? {
      EscapedKeySensitivity(Deref(nodes.name));
      RedactedLayout(nodes.item);
      RedactedMembersLayout(nodes.next);
      MarkIsUnescaped();
    }
  }

  lemma MarkIsUnescaped()
    ensures Escape(Redact.REDACTED) == Redact.REDACTED
  {
    forall c | c in Redact.REDACTED
      ensures EscapeByte(c) == [c]
    {
      assert c in "[redact]";
    }
    PlainIsUnescaped(Redact.REDACTED);
  }

  lemma {:induction false} RedactedMeaning(item: Item)
    requires Expressible(item)
    ensures Expressible(RedactItem(item)) && Meaning(RedactItem(item)) == RedactValue(Meaning(item))
    decreases item, 0
  {
    match item
    case Array(child) => RedactedElementMeanings(child);
    case Object(child) => RedactedMemberMeanings(child);
    case _ =>
  }

  lemma {:induction false} RedactedElementMeanings(nodes: Nodes)
    requires AllExpressible(nodes)
    ensures AllExpressible(RedactElements(nodes))
    ensures ElementMeanings(RedactElements(nodes)) == RedactValues(ElementMeanings(nodes))
    decreases nodes, 1
  {
    if nodes.Node? {
      RedactedMeaning(nodes.item);
      RedactedElementMeanings(nodes.next);
      assert ElementMeanings(nodes)[1..] == ElementMeanings(nodes.next);
    }
  }

  lemma {:induction false} RedactedMemberMeanings(nodes: Nodes)
    requires AllExpressible(nodes)
    ensures AllExpressible(RedactMembers(nodes))
    ensures MemberMeanings(RedactMembers(nodes)) == RedactPairs(MemberMeanings(nodes))
    decreases nodes, 1
  {
    hide Redact.Sensitive;
    if nodes.Node? {
      RedactedMeaning(nodes.item);
      RedactedMemberMeanings(nodes.next);
      assert MemberMeanings(nodes)[1..] == MemberMeanings(nodes.next);
    }
  }

  // --- Which redacted values the reader accepts ---

  // Outside hidden values, a key that the reader alone takes for a listed one has the mark for its value already.
  predicate ReaderAgrees(j: Json) {
    match j
    case JArray(elems) => forall i :: 0 <= i < |elems| ==> ReaderAgrees(elems[i])
    case JObject(members) =>
      forall i :: 0 <= i < |members| && !Redact.Sensitive(members[i].key) ==>
                    && (ReaderHides(members[i].key) ==> members[i].value == JString("[redacted]"))
                    && ReaderAgrees(members[i].value)
    case _ => true
  }

  lemma {:induction false} RedactedValuePassesIff(j: Json)
    ensures AssertRedacted(RedactValue(j)) <==> ReaderAgrees(j)
    decreases j, 0
  {
    match j
    case JArray(elems) => RedactedValuesPassIff(elems);
    case JObject(members) => RedactedPairsPassIff(members);
    case _ =>
  }

  lemma {:induction false} RedactedValuesPassIff(elems: seq<Json>)
    ensures |RedactValues(elems)| == |elems|
    ensures forall i :: 0 <= i < |elems| ==> (AssertRedacted(RedactValues(elems)[i]) <==> ReaderAgrees(elems[i]))
    decreases elems, 1
  {
    if elems != [] {
      RedactedValuePassesIff(elems[0]);
      RedactedValuesPassIff(elems[1..]);
    }
  }

  lemma {:induction false} RedactedPairsPassIff(members: seq<Member>)
    ensures |RedactPairs(members)| == |members|
    ensures forall i :: 0 <= i < |members| ==>
              var m, r := members[i], RedactPairs(members)[i];
              && r.key == m.key
              && ((ReaderHides(r.key) ==> r.value == JString("[redacted]")) && AssertRedacted(r.value)
                  <==> Redact.Sensitive(m.key)
                       || ((ReaderHides(m.key) ==> m.value == JString("[redacted]")) && ReaderAgrees(m.value)))
    decreases members, 1
  {
    hide Redact.Sensitive, ReaderHides;
    if members != [] {
      RedactedValuePassesIff(members[0].value);
      RedactedPairsPassIff(members[1..]);
    }
  }

  predicate AsciiKeys(j: Json) {
    match j
    case JArray(elems) => forall i :: 0 <= i < |elems| ==> AsciiKeys(elems[i])
    case JObject(members) =>
      forall i :: 0 <= i < |members| ==> AsciiOnly(members[i].key) && AsciiKeys(members[i].value)
    case _ => true
  }

  lemma {:induction false} AsciiKeysAgree(j: Json)
    requires AsciiKeys(j)
    ensures ReaderAgrees(j)
  {
    hide Redact.Sensitive, ReaderHides, AsciiOnly;
    match j
    case JArray(elems) =>
      forall i | 0 <= i < |elems| ensures ReaderAgrees(elems[i]) {
        AsciiKeysAgree(elems[i]);
      }
    case JObject(members) =>
      forall i | 0 <= i < |members| && !Redact.Sensitive(members[i].key)
        ensures (ReaderHides(members[i].key) ==> members[i].value == JString("[redacted]"))
                && ReaderAgrees(members[i].value)
      {
        ReaderHidesWhatIsSensitive(members[i].key);
        AsciiKeysAgree(members[i].value);
      }
    case _ =>
  }

  lemma ReadsLetter(c: char, key: string, listed: string)
    requires ReadsAs(key, listed)
    ensures ReadsAs([c] + key, [c] + listed)
  {
    assert ([c] + key)[1..] == key && ([c] + listed)[1..] == listed;
  }

  lemma ReadsKelvin(key: string, listed: string)
    requires ReadsAs(key, listed)
    ensures ReadsAs(KELVIN + key, "k" + listed)
  {
    assert (KELVIN + key)[|KELVIN|..] == key && ("k" + listed)[1..] == listed;
  }

  // "token", with the Kelvin sign for its k.
  const KELVIN_KEY: string := "to" + (KELVIN + "en")

  lemma KelvinKeyReads()
    ensures ReaderHides(KELVIN_KEY)
  {
    ReadsKelvin("en", "en");
    ReadsLetter('o', KELVIN + "en", "ken");
    ReadsLetter('t', "o" + (KELVIN + "en"), "oken");
    hide ReadsAs;
    assert "t" + ("o" + (KELVIN + "en")) == KELVIN_KEY && ['t'] == "t" && ['o'] == "o";
    assert "k" + "en" == "ken" && "o" + "ken" == "oken" && "t" + "oken" == "token";
  }

  lemma {:induction false} LowerLength(s: string)
    ensures |Lower(s)| == |s|
  {
    if s != "" {
      LowerLength(s[1..]);
    }
  }

  lemma KelvinKeyStays()
    ensures !Redact.Sensitive(KELVIN_KEY)
  {
    LowerLength(KELVIN_KEY);
    hide Lower;
    assert |KELVIN_KEY| == 7;
    assert forall k :: k in Redact.KEYS ==> |k| != 7;
  }

  /** A key spelled with the Kelvin sign is one that the redactor leaves alone and the reader does not. */
  lemma KelvinKeyIsRefused(value: string)
    requires value != "[redacted]"
    ensures var j := JObject([Member(KELVIN_KEY, JString(value))]);
            RedactValue(j) == j && !AssertRedacted(RedactValue(j))
  {
    KelvinKeyReads();
    KelvinKeyStays();
    hide Redact.Sensitive, ReaderHides, KELVIN_KEY;
    var members := [Member(KELVIN_KEY, JString(value))];
    assert RedactPairs(members[1..]) == [] && RedactValue(members[0].value) == members[0].value;
    assert RedactPairs(members) == [members[0]] + [] == members;
    assert ReaderHides(members[0].key) && members[0].value != JString("[redacted]");
    assert !AssertRedacted(JObject(members));
  }

  // --- The main result ---

  lemma ScanOfEncoding(item: Item)
    requires Expressible(item)
    ensures Redact.Scan(Encode(item)) == Redact.Redacted(Encode(RedactItem(item)))
  {
    hide Encode, Redact.Scan, T.Text, T.RedactTree;
    var c := Layout(item);
    LayoutWellFormed(item);
    EncodeIsLayout(item, "");
    T.TextRedactionIsTreeRedaction("", c, "");
    RedactedLayout(item);
    EncodeIsLayout(RedactItem(item), "");
    assert Encode(item) + "" == Encode(item) && Encode(RedactItem(item)) + "" == Encode(RedactItem(item));
    assert "" + T.Text(c, "") == T.Text(c, "") && "" + T.Text(T.RedactTree(c), "") == T.Text(T.RedactTree(c), "");
  }

  /** Details that were encoded, redacted as text and parsed again are the redacted tree. It passes the reader's check
      exactly when redactor and reader agree on the keys, and they do whenever the keys are ASCII. */
  lemma RedactedTextReadsBack(item: Item)
    requires Expressible(item)
    ensures var r := Redact.Scan(Encode(item));
            && r.Redacted?
            && Parse(r.text) == Got(RedactValue(Meaning(item)), "")
            && (AssertRedacted(RedactValue(Meaning(item))) <==> ReaderAgrees(Meaning(item)))
            && (AsciiKeys(Meaning(item)) ==> AssertRedacted(RedactValue(Meaning(item))))
  {
    hide Encode, Redact.Scan, Parse, Expressible, AssertRedacted, ReaderAgrees, AsciiKeys;
    ScanOfEncoding(item);
    RedactedMeaning(item);
    RoundTrip(RedactItem(item));
    RedactedValuePassesIff(Meaning(item));
    if AsciiKeys(Meaning(item)) {
      AsciiKeysAgree(Meaning(item));
    }
  }
}
