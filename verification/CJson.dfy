/** The cJSON tree that the firmware builds, and the text its streaming encoder is meant to produce.
    A byte of a C string is modelled as a character below 256; C strings never hold the byte 0. */
module CJson {
  import opened Texts

  // A `const char *`: either NULL or the bytes before the terminator.
  datatype CString = NullPointer | Chars(text: string)

  function Deref(s: CString): string {
    match s
    case NullPointer => ""
    case Chars(text) => text
  }

  // The "%.17g" rendering of a number, kept opaque: never empty and shorter than the encoder's 32-byte buffer.
  type NumberText = s: string | 0 < |s| < 32 witness "0"

  // One node as the encoder classifies it. `Absent` is a NULL pointer, `Unknown` a node no cJSON test accepts.
  datatype Item =
    | Absent
    | Null
    | Invalid
    | False
    | True
    | Number(finite: bool, text: NumberText)
    | Text(value: CString)
    | Raw(value: CString)
    | Array(child: Nodes)
    | Object(child: Nodes)
    | Unknown

  // The sibling list reached through `child` and `next`; `name` is cJSON's `string` field.
  datatype Nodes = End | Node(name: CString, item: Item, next: Nodes)

  function HexDigit(n: nat): char
    requires n < 16
  {
    "0123456789abcdef"[n]
  }

  // The letter of the two-byte escapes; NUL where a byte has none.
  function EscapeLetter(c: char): char {
    if c == '"' then '"'
    else if c == '\\' then '\\'
    else if c == '\U{0008}' then 'b'
    else if c == '\U{000C}' then 'f'
    else if c == '\n' then 'n'
    else if c == '\r' then 'r'
    else if c == '\t' then 't'
    else '\0'
  }

  function EscapeByte(c: char): string {
    if EscapeLetter(c) != '\0' then ['\\', EscapeLetter(c)]
    else if c < ' ' then ['\\', 'u', '0', '0', HexDigit(c as int / 16), HexDigit(c as int % 16)]
    else [c]
  }

  function Escape(s: string): string {
    if s == "" then "" else EscapeByte(s[0]) + Escape(s[1..])
  }

  function Quote(s: string): string {
    "\"" + Escape(s) + "\""
  }

  function Encode(item: Item): string {
    match item
    case Absent | Null | Invalid | Unknown => "null"
    case False => "false"
    case True => "true"
    case Number(finite, text) => if finite then text else "null"
    case Text(value) => Quote(Deref(value))
    case Raw(value) => if value.Chars? then value.text else "null"
    case Array(child) => "[" + Elements(child, true) + "]"
    case Object(child) => "{" + Members(child, true) + "}"
  }

  function Elements(nodes: Nodes, first: bool): string {
    match nodes
    case End => ""
    case Node(_, item, next) => (if first then "" else ",") + Encode(item) + Elements(next, false)
  }

  function Members(nodes: Nodes, first: bool): string {
    match nodes
    case End => ""
    case Node(name, item, next) =>
      (if first then "" else ",") + Quote(Deref(name)) + ":" + Encode(item) + Members(next, false)
  }

  function Append(a: Nodes, b: Nodes): Nodes {
    match a
    case End => b
    case Node(name, item, next) => Node(name, item, Append(next, b))
  }

  // Objects written one after the other, sharing the comma flag, read as one object.
  lemma {:induction false} MembersOfAppend(a: Nodes, b: Nodes, first: bool)
    ensures Members(Append(a, b), first) == Members(a, first) + Members(b, first && a.End?)
  {
    hide Encode, Quote;
    match a
    case End =>
    case Node(name, item, next) =>
      MembersOfAppend(next, b, false);
      var head := (if first then "" else ",") + Quote(Deref(name)) + ":" + Encode(item);
      assert Members(a, first) == head + Members(next, false);
      Regroup(head, Members(next, false), Members(b, false));
  }
}
