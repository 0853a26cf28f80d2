/** The chunked JSON encoder: it prints a tree through a 512-byte buffer into a sink that may refuse any chunk. */
module JsonStream {
  import opened CJson
  import opened JsonParser
  import opened JsonRoundTrip
  import opened Texts

  const CHUNK_BYTES: nat := 512

  function Concat(chunks: seq<string>): string {
    if chunks == [] then "" else Concat(chunks[..|chunks| - 1]) + chunks[|chunks| - 1]
  }

  predicate AllFull(chunks: seq<string>) {
    forall i :: 0 <= i < |chunks| ==> |chunks[i]| == 512
  }

  /** The transport. `verdict` decides on every chunk from the whole history of chunks, so it stands for any sink. */
  class Sink {
    const verdict: (seq<string>, string) -> bool
    var delivered: seq<string>
    var refused: bool
    ghost var refusal: string

    // A refusal is the transport's own decision about the chunk it was offered last.
    ghost predicate Valid()
      reads this
    {
      refused ==> !verdict(delivered, refusal)
    }

    constructor (verdict: (seq<string>, string) -> bool)
      ensures Valid() && this.verdict == verdict && delivered == [] && !refused
    {
      this.verdict := verdict;
      delivered, refused := [], false;
    }

    method Send(chunk: string) returns (accepted: bool)
      requires !refused  // a sink that refused is never called again
      modifies this
      ensures Valid() && accepted == verdict(old(delivered), chunk)
      ensures delivered == if accepted then old(delivered) + [chunk] else old(delivered)
      ensures refused == !accepted
    {
      accepted := verdict(delivered, chunk);
      if accepted {
        delivered := delivered + [chunk];
      } else {
        refused, refusal := true, chunk;
      }
    }
  }

  // A builder's outcome: the object could not be allocated, or it was filled with these members.
  datatype Fragment = OutOfMemory | Built(members: Nodes)

  // The members of the fragments built before the first failed allocation.
  function Joined(fragments: seq<Fragment>): Nodes {
    if fragments == [] || fragments[0].OutOfMemory? then End
    else Append(fragments[0].members, Joined(fragments[1..]))
  }

  predicate AllBuilt(fragments: seq<Fragment>) {
    forall i :: 0 <= i < |fragments| ==> fragments[i].Built?
  }

  // The observable state of an encoder: the chunks its sink took, the bytes still buffered, the failure latch.
  datatype View = View(delivered: seq<string>, buffer: string, failed: bool)

  function Written(v: View): string {
    Concat(v.delivered) + v.buffer
  }

  // What writing `data` does to an encoder, whatever the sink answers: all of it is written, or the sink refused a
  // chunk and holds a prefix of it. After a refusal the sink sees nothing more.
  ghost predicate Wrote(before: View, after: View, data: string, ok: bool) {
    && (AllFull(before.delivered) ==> AllFull(after.delivered))
    && (before.failed ==> after.failed && after.delivered == before.delivered)
    && (!before.failed ==> ok == !after.failed)
    && (!before.failed && ok ==> Written(after) == Written(before) + data)
    && (!before.failed && !ok ==> Concat(after.delivered) <= Written(before) + data)
  }

  lemma WroteNothing(v: View)
    ensures Wrote(v, v, "", true)
  {
  }

  lemma FillWrote(v: View, data: string)
    ensures Wrote(v, v.(buffer := v.buffer + data), data, true)
  {
    assert Concat(v.delivered) + (v.buffer + data) == Written(v) + data;
  }

  lemma ThenWrote(v0: View, v1: View, v2: View, a: string, b: string, ok: bool)
    requires Wrote(v0, v1, a, true) && Wrote(v1, v2, b, ok)
    ensures Wrote(v0, v2, a + b, ok)
  {
    assert Written(v0) + a + b == Written(v0) + (a + b);
  }

  // The encoder gives up by itself: nothing more is sent.
  lemma CutShort(v0: View, v1: View, v2: View, data: string)
    requires Wrote(v0, v1, data, true)
    requires v2.failed && v2.delivered == v1.delivered
    ensures Wrote(v0, v2, data, false)
  {
    assert Concat(v1.delivered) <= Written(v1);
  }

  lemma ThenStopped(v0: View, v1: View, a: string, b: string)
    requires Wrote(v0, v1, a, false)
    ensures Wrote(v0, v1, a + b, false)
  {
    assert Written(v0) + a + b == Written(v0) + (a + b);
    assert Written(v0) + a <= Written(v0) + a + b;
  }

  lemma JoinedNone(first: bool)
    ensures Members(Joined([]), first) == ""
  {
  }

  lemma JoinedSplits(fragments: seq<Fragment>, i: nat, first: bool, done: string)
    requires i < |fragments| && fragments[i].Built? && AllBuilt(fragments[..i])
    ensures var m := fragments[i].members;
            done + Members(Joined(fragments[i..]), first) ==
            done + Members(m, first) + Members(Joined(fragments[i + 1..]), first && m.End?)
    ensures AllBuilt(fragments[..i + 1])
  {
    assert fragments[i..][1..] == fragments[i + 1..];
    var m, later := fragments[i].members, Joined(fragments[i + 1..]);
    MembersOfAppend(m, later, first);
    Regroup(done, Members(m, first), Members(later, first && m.End?));
    assert fragments[..i + 1] == fragments[..i] + [fragments[i]];
  }

  lemma Regroup3(done: string, comma: string, value: string, rest: string)
    ensures done + (comma + value + rest) == done + comma + value + rest
  {
  }

  lemma Regroup5(done: string, comma: string, name: string, value: string, rest: string)
    ensures done + (comma + name + ":" + value + rest) == done + comma + name + ":" + value + rest
  {
  }

  class Stream {
    const sink: Sink?
    const chunk: array<char>
    var used: nat
    var failed: bool
    var allocationFailed: bool

    ghost predicate Valid()
      reads this, sink
    {
      && chunk.Length == CHUNK_BYTES
      && used <= CHUNK_BYTES
      && (sink != null ==> sink.Valid() && (sink.refused ==> failed))
      && (failed ==> sink == null || sink.refused || allocationFailed)
    }

    ghost function State(): View
      requires Valid()
      reads this, chunk, sink
    {
      View(if sink == null then [] else sink.delivered, chunk[..used], failed)
    }

    constructor (sink: Sink?)
      requires sink != null ==> sink.Valid() && sink.delivered == [] && !sink.refused
      ensures Valid() && this.sink == sink && fresh(chunk)
      ensures State() == View([], "", false) && !allocationFailed
    {
      this.sink := sink;
      chunk := new char[CHUNK_BYTES](_ => '\0');
      used, failed, allocationFailed := 0, false, false;
    }

    method Flush() returns (ok: bool)
      requires Valid()
      modifies this, sink
      ensures Valid() && allocationFailed == old(allocationFailed)
      ensures var v := old(State());
              State() == if v.failed || v.buffer == "" then v
                         else if ok then View(v.delivered + [v.buffer], "", false)
                         else View(v.delivered, "", true)
      ensures old(failed) ==> !ok
      ensures old(!failed && used == 0) ==> ok
    {
      if failed {
        return false;
      }
      if used == 0 {
        return true;
      }
      ok := false;
      if sink != null {
        ok := sink.Send(chunk[..used]);
      }
      used := 0;
      if !ok {
        failed := true;
      }
    }

    // The flush a write performs when the buffer is full.
    method MakeRoom() returns (ok: bool)
      requires Valid()
      modifies this, sink
      ensures Valid() && allocationFailed == old(allocationFailed)
      ensures Wrote(old(State()), State(), "", ok)
      ensures ok ==> used < CHUNK_BYTES
    {
      ghost var v := State();
      ok := true;
      if used == CHUNK_BYTES {
        ok := Flush();
        assert ok ==> State().delivered[..|v.delivered|] == v.delivered;
      }
    }

    // The memcpy of one write: `data` fits the space left in the buffer.
    method Fill(data: string)
      requires Valid() && used + |data| <= CHUNK_BYTES
      modifies this, chunk
      ensures Valid() && allocationFailed == old(allocationFailed)
      ensures State() == old(State()).(buffer := old(State()).buffer + data)
    {
      forall k | 0 <= k < |data| {
        chunk[used + k] := data[k];
      }
      assert chunk[..used + |data|] == old(chunk[..used]) + data;
      used := used + |data|;
    }

    method Write(data: string) returns (ok: bool)
      requires Valid()
      modifies this, chunk, sink
      ensures Valid() && allocationFailed == old(allocationFailed)
      ensures Wrote(old(State()), State(), data, ok)
    {
      hide Wrote, Concat, Sink.Valid;
      ghost var v := State();
      WroteNothing(v);
      var pos := 0;
      while pos < |data|
        invariant pos <= |data| && Valid() && allocationFailed == old(allocationFailed)
        invariant Wrote(v, State(), data[..pos], true)
      {
        ghost var v1 := State();
        var room := MakeRoom();
        ghost var v2 := State();
        if !room {
          assert data[..pos] + "" + data[pos..] == data;
          ThenWrote(v, v1, v2, data[..pos], "", false);
          ThenStopped(v, v2, data[..pos] + "", data[pos..]);
          return false;
        }
        var available := CHUNK_BYTES - used;
        var count := if |data| - pos < available then |data| - pos else available;
        var piece := data[pos..pos + count];
        Fill(piece);
        FillWrote(v2, piece);
        ThenWrote(v, v1, v2, data[..pos], "", true);
        ThenWrote(v, v2, State(), data[..pos] + "", piece, true);
        assert data[..pos] + "" + piece == data[..pos + count];
        pos := pos + count;
      }
      assert data[..pos] == data;
      return true;
    }

    // `encoded && literal(...)`: the next literal of a production, skipped once an earlier write was refused.
    // `done` is what the production has written since the state `v`.
    method AndLiteral(encoded: bool, data: string, ghost v: View, ghost done: string) returns (ok: bool)
      requires Valid() && Wrote(v, State(), done, encoded)
      modifies this, chunk, sink
      ensures Valid() && allocationFailed == old(allocationFailed)
      ensures Wrote(v, State(), done + data, ok)
      ensures ok ==> encoded
    {
      hide Wrote, Concat, Sink.Valid;
      ghost var v1 := State();
      if encoded {
        ok := Write(data);
        ThenWrote(v, v1, State(), done, data, ok);
      } else {
        ok := false;
        ThenStopped(v, v1, done, data);
      }
    }

    method String(value: CString) returns (ok: bool)
      requires Valid()
      modifies this, chunk, sink
      ensures Valid() && allocationFailed == old(allocationFailed)
      ensures Wrote(old(State()), State(), Quote(Deref(value)), ok)
    {
      hide Wrote, Concat, Sink.Valid, EscapeByte;
      ghost var v := State();
      ghost var done := "\"";
      ok := Write("\"");
      var s := Deref(value);
      while ok && s != ""
        invariant Valid() && allocationFailed == old(allocationFailed)
        invariant Wrote(v, State(), done, ok)
        invariant done + (Escape(s) + "\"") == Quote(Deref(value))
        decreases |s|, ok
      {
        EscapeSplits(s, "\"");
        ok := AndLiteral(ok, EscapeByte(s[0]), v, done);
        done := done + EscapeByte(s[0]);
        s := s[1..];
      }
      if ok {
        assert Escape(s) + "\"" == "\"";
        ok := AndLiteral(ok, "\"", v, done);
      } else {
        ThenStopped(v, State(), done, Escape(s) + "\"");
      }
    }

    method Value(item: Item) returns (ok: bool)
      requires Valid()
      modifies this, chunk, sink
      ensures Valid() && allocationFailed == old(allocationFailed)
      ensures Wrote(old(State()), State(), Encode(item), ok)
      decreases item, 2
    {
      hide Wrote, Concat, Sink.Valid;
      ghost var v := State();
      match item
      case False =>
        ok := Write("false");
      case True =>
        ok := Write("true");
      case Number(finite, text) =>
        if !finite {
          ok := Write("null");
        } else {
          ok := Write(text);
        }
      case Text(value) =>
        ok := String(value);
      case Raw(value) =>
        ok := Write(if value.Chars? then value.text else "null");
      case Array(child) =>
        ok := Write("[");
        ok := ArrayElements(ok, child, v, "[");
        ok := AndLiteral(ok, "]", v, "[" + Elements(child, true));
      case Object(child) =>
        ok := Write("{");
        var first;
        ok, first := ObjectMembers(ok, child, true, v, "{");
        ok := AndLiteral(ok, "}", v, "{" + Members(child, true));
      case _ =>
        ok := Write("null");
    }

    method AndValue(encoded: bool, item: Item, ghost v: View, ghost done: string) returns (ok: bool)
      requires Valid() && Wrote(v, State(), done, encoded)
      modifies this, chunk, sink
      ensures Valid() && allocationFailed == old(allocationFailed)
      ensures Wrote(v, State(), done + Encode(item), ok)
      decreases item, 3
    {
      hide Wrote, Concat, Sink.Valid;
      ghost var v1 := State();
      if encoded {
        ok := Value(item);
        ThenWrote(v, v1, State(), done, Encode(item), ok);
      } else {
        ok := false;
        ThenStopped(v, v1, done, Encode(item));
      }
    }

    // The child walk of an array.
    method ArrayElements(encoded: bool, elements: Nodes, ghost v: View, ghost before: string) returns (ok: bool)
      requires Valid() && Wrote(v, State(), before, encoded)
      modifies this, chunk, sink
      ensures Valid() && allocationFailed == old(allocationFailed)
      ensures Wrote(v, State(), before + Elements(elements, true), ok)
      decreases elements, 4
    {
      hide Wrote, Concat, Sink.Valid;
      ghost var done := before;
      ok := encoded;
      var child, first := elements, true;
      while ok && child.Node?
        invariant Valid() && allocationFailed == old(allocationFailed)
        invariant Wrote(v, State(), done, ok)
        invariant done + Elements(child, first) == before + Elements(elements, true)
        invariant (elements nonincreases to child)
        decreases child
      {
        var comma := if first then "" else ",";
        Regroup3(done, comma, Encode(child.item), Elements(child.next, false));
        ok := AndLiteral(ok, comma, v, done);
        ok := AndValue(ok, child.item, v, done + comma);
        done := done + comma + Encode(child.item);
        first := false;
        child := child.next;
      }
      if ok {
        assert done + "" == done;
      } else {
        ThenStopped(v, State(), done, Elements(child, first));
      }
    }

    // Writes members one after the other; `first` is the comma flag that callers pass by reference.
    method ObjectMembers(encoded: bool, members: Nodes, firstIn: bool, ghost v: View, ghost before: string)
      returns (ok: bool, first: bool)
      requires Valid() && Wrote(v, State(), before, encoded)
      modifies this, chunk, sink
      ensures Valid() && allocationFailed == old(allocationFailed)
      ensures Wrote(v, State(), before + Members(members, firstIn), ok)
      ensures ok ==> first == (firstIn && members.End?)
      decreases members, 4
    {
      hide Wrote, Concat, Sink.Valid;
      ghost var done := before;
      ok, first := encoded, firstIn;
      var child := members;
      while ok && child.Node?
        invariant Valid() && allocationFailed == old(allocationFailed)
        invariant Wrote(v, State(), done, ok)
        invariant done + Members(child, first) == before + Members(members, firstIn)
        invariant ok ==> first == (firstIn && child == members)
        invariant (members nonincreases to child)
        decreases child
      {
        var comma := if first then "" else ",";
        var name := Quote(Deref(child.name));
        Regroup5(done, comma, name, Encode(child.item), Members(child.next, false));
        ok := AndLiteral(ok, comma, v, done);
        ok := AndString(ok, child.name, v, done + comma);
        ok := AndLiteral(ok, ":", v, done + comma + name);
        ok := AndValue(ok, child.item, v, done + comma + name + ":");
        done := done + comma + name + ":" + Encode(child.item);
        first := false;
        child := child.next;
      }
      if ok {
        assert done + "" == done;
      } else {
        ThenStopped(v, State(), done, Members(child, first));
      }
    }

    method AndString(encoded: bool, value: CString, ghost v: View, ghost done: string) returns (ok: bool)
      requires Valid() && Wrote(v, State(), done, encoded)
      modifies this, chunk, sink
      ensures Valid() && allocationFailed == old(allocationFailed)
      ensures Wrote(v, State(), done + Quote(Deref(value)), ok)
    {
      hide Wrote, Concat, Sink.Valid;
      ghost var v1 := State();
      if encoded {
        ok := String(value);
        ThenWrote(v, v1, State(), done, Quote(Deref(value)), ok);
      } else {
        ok := false;
        ThenStopped(v, v1, done, Quote(Deref(value)));
      }
    }

    // One object assembled from several builders; one fragment exists at a time.
    method ObjectFragments(fragments: seq<Fragment>) returns (ok: bool)
      requires Valid()
      modifies this, chunk, sink
      ensures Valid()
      ensures Wrote(old(State()), State(), Encode(Object(Joined(fragments))), ok)
      ensures ok ==> AllBuilt(fragments) && allocationFailed == old(allocationFailed)
      ensures allocationFailed && !old(allocationFailed) ==> failed && !AllBuilt(fragments)
    {
      hide Wrote, Concat, Sink.Valid, Members, Joined;
      ghost var v := State();
      ghost var done := "{";
      ghost var flag := true;
      var first := true;
      ok := Write("{");
      var i := 0;
      while ok && i < |fragments|
        invariant i <= |fragments| && Valid() && allocationFailed == old(allocationFailed)
        invariant AllBuilt(fragments[..i])
        invariant Wrote(v, State(), done, ok)
        invariant ok ==> first == flag
        invariant done + Members(Joined(fragments[i..]), flag) == "{" + Members(Joined(fragments), true)
        decreases |fragments| - i
      {
        if fragments[i].OutOfMemory? {
          ghost var v1 := State();
          allocationFailed := true;
          failed := true;
          CutShort(v, v1, State(), done);
          ok := false;
          break;
        }
        ghost var members := fragments[i].members;
        JoinedSplits(fragments, i, flag, done);
        ok, first := ObjectMembers(ok, fragments[i].members, first, v, done);
        done := done + Members(members, flag);
        flag := flag && members.End?;
        i := i + 1;
      }
      if ok {
        JoinedNone(flag);
        assert fragments[..i] == fragments && fragments[i..] == [] && done + "" == done;
        ok := AndLiteral(ok, "}", v, done);
      } else {
        ThenStopped(v, State(), done, Members(Joined(fragments[i..]), flag) + "}");
        Regroup(done, Members(Joined(fragments[i..]), flag), "}");
      }
    }
  }

  // The chunks a client receives: none empty, none over the limit, and only the last one may be short.
  predicate WellChunked(chunks: seq<string>) {
    && (forall i :: 0 <= i < |chunks| ==> 0 < |chunks[i]| <= CHUNK_BYTES)
    && (forall i :: 0 <= i < |chunks| - 1 ==> |chunks[i]| == CHUNK_BYTES)
  }

  // The state of a finished response: `v` before its last flush, `chunks` after it.
  lemma Delivered(v: View, text: string, chunks: seq<string>)
    requires Wrote(View([], "", false), v, text, true) && |v.buffer| <= CHUNK_BYTES
    requires chunks == v.delivered + if v.buffer == "" then [] else [v.buffer]
    ensures WellChunked(chunks) && Concat(chunks) == text
  {
    assert "" + text == text;
    if v.buffer == "" {
      assert chunks == v.delivered;
    } else {
      assert chunks[..|chunks| - 1] == v.delivered;
    }
  }

  lemma Refused(v: View, text: string, ok: bool)
    requires Wrote(View([], "", false), v, text, ok)
    ensures AllFull(v.delivered) && WellChunked(v.delivered) && Concat(v.delivered) <= text
    ensures ok || v.failed
  {
    assert "" + text == text;
    assert Concat(v.delivered) <= Written(v);
  }

  /** A whole response: encode one tree, then flush. `verdict` is any sink; `chunks` is what it took. */
  method Respond(item: Item, verdict: (seq<string>, string) -> bool) returns (ok: bool, chunks: seq<string>)
    ensures WellChunked(chunks)
    ensures ok ==> Concat(chunks) == Encode(item)
    ensures !ok ==> AllFull(chunks) && Concat(chunks) <= Encode(item) && exists last :: !verdict(chunks, last)
    ensures ok && Expressible(item) ==> Parse(Concat(chunks)) == Got(Meaning(item), "")
  {
    hide Wrote, Concat, WellChunked, AllFull, Encode, Parse, Meaning, Expressible;
    var sink := new Sink(verdict);
    var stream := new Stream(sink);
    ok := stream.Value(item);
    ghost var v := stream.State();
    if ok {
      ok := stream.Flush();
      if ok {
        Delivered(v, Encode(item), sink.delivered);
        RoundTripIfExpressible(item);
      } else {
        Refused(v, Encode(item), true);
      }
    } else {
      Refused(v, Encode(item), false);
    }
    chunks := sink.delivered;
    assert !ok ==> !verdict(chunks, sink.refusal);
  }

  /** The aggregate status response: one object built fragment by fragment. */
  method RespondFragments(fragments: seq<Fragment>, verdict: (seq<string>, string) -> bool)
    returns (ok: bool, chunks: seq<string>)
    ensures WellChunked(chunks)
    ensures ok ==> AllBuilt(fragments) && Concat(chunks) == Encode(Object(Joined(fragments)))
    ensures !ok ==> AllFull(chunks) && Concat(chunks) <= Encode(Object(Joined(fragments)))
    ensures !ok ==> !AllBuilt(fragments) || exists last :: !verdict(chunks, last)
  {
    hide Wrote, Concat, WellChunked, AllFull, Encode, AllBuilt;
    var sink := new Sink(verdict);
    var stream := new Stream(sink);
    ok := stream.ObjectFragments(fragments);
    ghost var v := stream.State();
    ghost var text := Encode(Object(Joined(fragments)));
    if ok {
      ok := stream.Flush();
      if ok {
        Delivered(v, text, sink.delivered);
      } else {
        Refused(v, text, true);
      }
    } else {
      Refused(v, text, false);
    }
    chunks := sink.delivered;
    assert !ok && sink.refused ==> !verdict(chunks, sink.refusal);
  }

  lemma RoundTripIfExpressible(item: Item)
    ensures Expressible(item) ==> Parse(Encode(item)) == Got(Meaning(item), "")
  {
    if Expressible(item) {
      RoundTrip(item);
    }
  }
}
