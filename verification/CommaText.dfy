/** Fields joined by commas, and how a reader takes them apart again. */
module CommaText {

  function Joined(fields: seq<string>): string {
    if |fields| == 0 then ""
    else if |fields| == 1 then fields[0]
    else Joined(fields[..|fields| - 1]) + "," + fields[|fields| - 1]
  }

  // How a reader takes a line apart.
  function Split(text: string): (fields: seq<string>)
    ensures fields != []
  {
    if text == "" then [""]
    else
      var rest := Split(text[1..]);
      if text[0] == ',' then [""] + rest else [[text[0]] + rest[0]] + rest[1..]
  }

  lemma JoinedSnoc(fields: seq<string>, last: string)
    requires fields != []
    ensures Joined(fields + [last]) == Joined(fields) + "," + last
  {
    assert (fields + [last])[..|fields|] == fields;
  }

  lemma {:induction false} JoinedGrows(fields: seq<string>, more: seq<string>)
    requires fields != []
    ensures |Joined(fields)| <= |Joined(fields + more)|
    decreases |more|
  {
    if more == [] {
      assert fields + more == fields;
    } else {
      var m := |more| - 1;
      JoinedGrows(fields, more[..m]);
      JoinedSnoc(fields + more[..m], more[m]);
      assert fields + more[..m] + [more[m]] == fields + more;
    }
  }

  lemma {:induction false} SplitSnoc(text: string, last: string)
    requires ',' !in last
    ensures Split(text + "," + last) == Split(text) + [last]
  {
    if text == "" {
      assert "" + "," + last == "," + last && ("," + last)[1..] == last;
      SplitPlain(last);
    } else {
      assert (text + "," + last)[1..] == text[1..] + "," + last;
      SplitSnoc(text[1..], last);
    }
  }

  lemma {:induction false} SplitPlain(text: string)
    requires ',' !in text
    ensures Split(text) == [text]
  {
    if text != "" {
      SplitPlain(text[1..]);
      assert text[0] in text && text == [text[0]] + text[1..];
    }
  }

  lemma {:induction false} SplitJoined(fields: seq<string>)
    requires fields != [] && forall f :: f in fields ==> ',' !in f
    ensures Split(Joined(fields)) == fields
  {
    var m := |fields| - 1;
    if m == 0 {
      SplitPlain(fields[0]);
    } else {
      SplitJoined(fields[..m]);
      SplitSnoc(Joined(fields[..m]), fields[m]);
      assert fields == fields[..m] + [fields[m]];
    }
  }

  lemma {:induction false} PiecesHaveNoComma(text: string)
    ensures forall f :: f in Split(text) ==> ',' !in f
  {
    if text != "" {
      PiecesHaveNoComma(text[1..]);
      var rest := Split(text[1..]);
      assert rest[0] in rest;
      forall f | f in Split(text) ensures ',' !in f {
        assert f in rest || f == "" || f == [text[0]] + rest[0];
      }
    } else {
      assert forall f :: f in [""] ==> f == "";
    }
  }
}
