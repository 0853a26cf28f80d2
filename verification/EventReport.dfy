/** The host's reader of the journal: it accepts a journal only if every boot's events come in order, and pairs link
    losses with recoveries. */
module EventReport {
  import JournalFiles
  import opened Options
  import opened Texts

  datatype Event = Event(schemaOk: bool, boot: Option<string>, sequence: Option<int>, redacted: bool,
                         component: string, name: string, uptime: int, wallTime: Option<string>, reason: string)

  // What a line is to the JSON reader.
  datatype Decoded = Blank | Malformed | Record(event: Event)

  datatype Loaded = Loaded(events: seq<Event>) | Refused(line: nat)

  predicate Acceptable(e: Event) {
    e.schemaOk && e.boot.Some? && e.sequence.Some? && e.redacted
  }

  predicate LineOk(d: Decoded) {
    d.Blank? || (d.Record? && Acceptable(d.event))
  }

  predicate Readable(lines: seq<string>, read: string -> Decoded) {
    forall line :: line in lines ==> LineOk(read(line))
  }

  function Records(lines: seq<string>, read: string -> Decoded): seq<Event> {
    if lines == [] then []
    else
      var m := |lines| - 1;
      Records(lines[..m], read) + match read(lines[m]) case Record(e) => [e] case _ => []
  }

  // Within each boot the sequence numbers strictly increase.
  predicate InOrder(events: seq<Event>) {
    forall i, j ::
      0 <= i < j < |events| && events[i].boot == events[j].boot
      && events[i].sequence.Some? && events[j].sequence.Some? ==>
        events[i].sequence.value < events[j].sequence.value
  }

  predicate Loads(lines: seq<string>, read: string -> Decoded) {
    Readable(lines, read) && InOrder(Records(lines, read))
  }

  // The highest sequence number seen of each boot.
  ghost predicate Tracks(last: map<string, int>, events: seq<Event>) {
    && (forall e :: e in events ==> Acceptable(e) && e.boot.value in last && e.sequence.value <= last[e.boot.value])
    && (forall b :: b in last ==>
          exists i :: 0 <= i < |events| && events[i].boot == Some(b) && events[i].sequence == Some(last[b]))
  }

  lemma StaleBreaksOrder(last: map<string, int>, events: seq<Event>, e: Event)
    requires Tracks(last, events) && Acceptable(e) && e.boot.value in last && e.sequence.value <= last[e.boot.value]
    ensures !InOrder(events + [e])
  {
    var b, all, n := e.boot.value, events + [e], |events|;
    var i :| 0 <= i < n && events[i].boot == Some(b) && events[i].sequence == Some(last[b]);
    assert all[i] == events[i] && all[n] == e;
  }

  lemma FreshKeepsOrder(last: map<string, int>, events: seq<Event>, e: Event)
    requires Tracks(last, events) && Acceptable(e) && InOrder(events)
    requires e.boot.value in last ==> e.sequence.value > last[e.boot.value]
    ensures InOrder(events + [e])
  {
    var all, n := events + [e], |events|;
    forall i, j | 0 <= i < j < n + 1 && all[i].boot == all[j].boot && all[i].sequence.Some? && all[j].sequence.Some?
      ensures all[i].sequence.value < all[j].sequence.value
    {
      assert all[i] == events[i] && events[i] in events;
      if j < n {
        assert all[j] == events[j];
      }
    }
  }

  lemma FreshIsTracked(last: map<string, int>, events: seq<Event>, e: Event)
    requires Tracks(last, events) && Acceptable(e)
    requires e.boot.value in last ==> e.sequence.value > last[e.boot.value]
    ensures Tracks(last[e.boot.value := e.sequence.value], events + [e])
  {
    var b, all, n := e.boot.value, events + [e], |events|;
    var next := last[b := e.sequence.value];
    forall c | c in next
      ensures exists i :: 0 <= i < |all| && all[i].boot == Some(c) && all[i].sequence == Some(next[c])
    {
      if c == b {
        assert all[n] == e;
      } else {
        var i :| 0 <= i < n && events[i].boot == Some(c) && events[i].sequence == Some(last[c]);
        assert all[i] == events[i];
      }
    }
    forall d | d in all ensures Acceptable(d) && d.boot.value in next && d.sequence.value <= next[d.boot.value] {
      assert d == e || d in events;
    }
  }

  lemma TracksNext(last: map<string, int>, events: seq<Event>, e: Event)
    requires Tracks(last, events) && Acceptable(e) && InOrder(events)
    ensures var b := e.boot.value;
            if b in last && e.sequence.value <= last[b] then !InOrder(events + [e])
            else InOrder(events + [e]) && Tracks(last[b := e.sequence.value], events + [e])
  {
    hide Tracks, InOrder;
    if e.boot.value in last && e.sequence.value <= last[e.boot.value] {
      StaleBreaksOrder(last, events, e);
    } else {
      FreshKeepsOrder(last, events, e);
      FreshIsTracked(last, events, e);
    }
  }

  lemma LoadsOneMore(lines: seq<string>, read: string -> Decoded, i: nat)
    requires i < |lines|
    ensures Readable(lines[..i + 1], read) <==> Readable(lines[..i], read) && LineOk(read(lines[i]))
    ensures var before := Records(lines[..i], read);
            Records(lines[..i + 1], read) == match read(lines[i]) case Record(e) => before + [e] case _ => before
  {
    assert lines[..i + 1][..i] == lines[..i];
    assert lines[..i + 1] == lines[..i] + [lines[i]];
  }

  lemma {:induction false} LoadsPrefix(lines: seq<string>, read: string -> Decoded, i: nat)
    requires i <= |lines| && Loads(lines, read)
    ensures Loads(lines[..i], read)
    decreases |lines| - i
  {
    if i == |lines| {
      assert lines[..i] == lines;
    } else {
      LoadsPrefix(lines, read, i + 1);
      LoadsOneMore(lines, read, i);
      var a, b := Records(lines[..i], read), Records(lines[..i + 1], read);
      assert forall k :: 0 <= k < |a| ==> a[k] == b[k];
    }
  }

  /** The journal loads exactly when every line is a redacted record of the right schema and each boot's numbers
      increase; otherwise the first line that breaks this is named. */
  method LoadEvents(lines: seq<string>, read: string -> Decoded) returns (r: Loaded)
    ensures r.Loaded? <==> Loads(lines, read)
    ensures r.Loaded? ==> r.events == Records(lines, read)
    ensures r.Refused? ==> r.line < |lines| && Loads(lines[..r.line], read) && !Loads(lines[..r.line + 1], read)
  {
    hide Tracks, InOrder, Readable, Records;
    var events: seq<Event> := [];
    var last: map<string, int> := map[];
    var i: nat := 0;
    LoadsNothing(read);
    assert lines[..0] == [];
    while i < |lines|
      invariant i <= |lines|
      invariant Loads(lines[..i], read) && events == Records(lines[..i], read) && Tracks(last, events)
    {
      LoadsOneMore(lines, read, i);
      if Loads(lines, read) {
        LoadsPrefix(lines, read, i + 1);
      }
      match read(lines[i]) {
        case Blank =>
        case Malformed => return Refused(i);
        case Record(e) =>
          if !e.schemaOk || e.boot == None || e.sequence == None {
            return Refused(i);
          }
          if e.redacted {
            TracksNext(last, events, e);
          }
          if e.boot.value in last && e.sequence.value <= last[e.boot.value] {
            return Refused(i);
          }
          last := last[e.boot.value := e.sequence.value];
          if !e.redacted {
            return Refused(i);
          }
          events := events + [e];
      }
      i := i + 1;
    }
    assert lines[..i] == lines;
    r := Loaded(events);
  }

  lemma LoadsNothing(read: string -> Decoded)
    ensures Loads([], read) && Records([], read) == [] && Tracks(map[], [])
  {
  }

  // --- The journal the firmware writes loads ---

  lemma {:induction false} RecordsOfConcat(a: seq<string>, b: seq<string>, read: string -> Decoded)
    ensures Records(a + b, read) == Records(a, read) + Records(b, read)
    decreases |b|
  {
    if b == [] {
      assert a + b == a;
    } else {
      var m := |b| - 1;
      RecordsOfConcat(a, b[..m], read);
      assert (a + b)[..|a| + m] == a + b[..m];
    }
  }

  /** Lines of white space count for nothing, wherever they are; a line that is no JSON, or no acceptable event, stops
      the reader. */
  lemma BlankLinesAreSkipped(a: seq<string>, line: string, b: seq<string>, read: string -> Decoded)
    ensures read(line).Blank? ==>
              && Records(a + [line] + b, read) == Records(a + b, read)
              && (Loads(a + [line] + b, read) <==> Loads(a + b, read))
    ensures read(line).Malformed? || (read(line).Record? && !Acceptable(read(line).event)) ==>
              !Loads(a + [line] + b, read)
  {
    var all := a + [line] + b;
    assert line in all && forall l :: l in all <==> l == line || l in a + b;
    assert Records([line][..0], read) == [];
    RecordsOfConcat(a + [line], b, read);
    RecordsOfConcat(a, [line], read);
    RecordsOfConcat(a, b, read);
    NothingAfter(Records(a, read));
    hide Records, InOrder;
  }

  lemma SuffixInOrder(a: seq<Event>, b: seq<Event>)
    requires InOrder(a + b)
    ensures InOrder(b)
  {
    assert forall i :: 0 <= i < |b| ==> b[i] == (a + b)[|a| + i];
  }

  lemma SuffixReadable(lines: seq<string>, read: string -> Decoded, k: nat)
    requires Readable(lines, read) && k <= |lines|
    ensures Readable(lines[k..], read)
  {
  }

  lemma SuffixLoads(lines: seq<string>, read: string -> Decoded, k: nat)
    requires Loads(lines, read) && k <= |lines|
    ensures Loads(lines[k..], read)
    ensures Records(lines, read) == Records(lines[..k], read) + Records(lines[k..], read)
  {
    hide Records, InOrder, Readable;
    Rejoined(lines, k);
    RecordsOfConcat(lines[..k], lines[k..], read);
    SuffixInOrder(Records(lines[..k], read), Records(lines[k..], read));
    SuffixReadable(lines, read, k);
  }

  /** Whatever rotations, failures and crashes happened: if the records the firmware appended are acceptable and in
      order, the reader loads the journal, and gets the newest of them without a gap. */
  lemma JournalLoads(events: seq<JournalFiles.Event>, limit: nat, count: nat, read: string -> Decoded) returns (k: nat)
    requires count >= 2 && forall e :: e in events ==> JournalFiles.Plausible(e, limit)
    requires Loads(JournalFiles.Run(JournalFiles.Journal(map[], []), events, limit, count).history, read)
    ensures var end := JournalFiles.Run(JournalFiles.Journal(map[], []), events, limit, count);
            && JournalFiles.HasNewest(end.history, k)
            && JournalFiles.ReadLines(end.files, count - 1) == end.history[k..]
            && Loads(JournalFiles.ReadLines(end.files, count - 1), read)
            && Records(end.history, read)
               == Records(end.history[..k], read) + Records(JournalFiles.ReadLines(end.files, count - 1), read)
  {
    hide Loads, Records, JournalFiles.Run, JournalFiles.ReadLines;
    JournalFiles.JournalIsContiguousSuffix(events, limit, count);
    var end := JournalFiles.Run(JournalFiles.Journal(map[], []), events, limit, count);
    k :| JournalFiles.HasNewest(end.history, k) && JournalFiles.ReadLines(end.files, count - 1) == end.history[k..];
    SuffixLoads(end.history, read, k);
  }

  // --- Outages ---

  predicate Down(e: Event, component: string) {
    e.component == component &&
    ((component == "ppp" && e.name == "down") || (component == "mqtt" && e.name == "disconnected"))
  }

  predicate Up(e: Event, component: string) {
    e.component == component &&
    ((component == "ppp" && e.name == "up") || (component == "mqtt" && e.name == "connected"))
  }

  // Before event n, the link has been down since event i: the first loss after the last recovery.
  ghost predicate DownSince(events: seq<Event>, n: nat, component: string, i: nat) {
    && n <= |events| && i < n && Down(events[i], component)
    && (forall u :: i < u < n ==> !Up(events[u], component))
    && (forall j :: 0 <= j < i && Down(events[j], component) ==> exists u :: j < u < i && Up(events[u], component))
  }

  datatype Outage = Outage(component: string, start: nat, end: nat)

  // An outage runs from the first loss to the recovery.
  ghost predicate IsOutage(events: seq<Event>, o: Outage) {
    o.end < |events| && Up(events[o.end], o.component) && DownSince(events, o.end, o.component, o.start)
  }

  lemma DownSinceOnce(events: seq<Event>, n: nat, component: string, i: nat, j: nat)
    requires DownSince(events, n, component, i) && DownSince(events, n, component, j)
    ensures i == j
  {
  }

  ghost predicate OpenIs(open: map<string, nat>, events: seq<Event>, n: nat) {
    && (forall c :: c in open ==> DownSince(events, n, c, open[c]))
    && (forall c, i: nat :: DownSince(events, n, c, i) ==> c in open)
  }

  lemma StaysDown(events: seq<Event>, n: nat, c: string, i: nat)
    requires n < |events| && i < n
    ensures DownSince(events, n + 1, c, i) <==> DownSince(events, n, c, i) && !Up(events[n], c)
  {
    if DownSince(events, n + 1, c, i) {
      assert forall u :: i < u < n ==> !Up(events[u], c);
    }
  }

  // A loss opens an outage exactly when none is open.
  lemma GoesDown(events: seq<Event>, n: nat, c: string, open: map<string, nat>)
    requires n < |events| && OpenIs(open, events, n)
    ensures DownSince(events, n + 1, c, n) <==> Down(events[n], c) && c !in open
  {
    if c in open {
      var i := open[c];
      assert DownSince(events, n, c, i) && Down(events[i], c);
    } else if Down(events[n], c) {
      forall j: nat | j < n && Down(events[j], c) ensures exists u :: j < u < n && Up(events[u], c) {
        AnEarlierLossRecovered(events, n, c, j);
      }
    }
  }

  // If nothing is open, every earlier loss has been recovered from.
  lemma {:induction false} AnEarlierLossRecovered(events: seq<Event>, n: nat, c: string, j: nat)
    requires n <= |events| && j < n && Down(events[j], c)
    requires forall i: nat :: !DownSince(events, n, c, i)
    ensures exists u :: j < u < n && Up(events[u], c)
    decreases j
  {
    if forall u :: j < u < n ==> !Up(events[u], c) {
      assert !DownSince(events, n, c, j);
      var i: nat :| i < j && Down(events[i], c) && forall u :: i < u < j ==> !Up(events[u], c);
      AnEarlierLossRecovered(events, n, c, i);
    }
  }

  function NextOpen(open: map<string, nat>, e: Event, n: nat): map<string, nat> {
    var c := e.component;
    if Down(e, c) then (if c in open then open else open[c := n])
    else if Up(e, c) && c in open then open - {c}
    else open
  }

  lemma OpenStaysTrue(open: map<string, nat>, events: seq<Event>, n: nat, c: string)
    requires n < |events| && OpenIs(open, events, n) && c in NextOpen(open, events[n], n)
    ensures DownSince(events, n + 1, c, NextOpen(open, events[n], n)[c])
  {
    GoesDown(events, n, c, open);
    if c in open {
      StaysDown(events, n, c, open[c]);
    }
    hide DownSince;
  }

  lemma OpenStaysComplete(open: map<string, nat>, events: seq<Event>, n: nat, c: string, i: nat)
    requires n < |events| && OpenIs(open, events, n) && DownSince(events, n + 1, c, i)
    ensures c in NextOpen(open, events[n], n)
  {
    GoesDown(events, n, c, open);
    if i < n {
      StaysDown(events, n, c, i);
    }
    assert i <= n;
    hide DownSince;
  }

  lemma OpenNext(open: map<string, nat>, events: seq<Event>, n: nat)
    requires n < |events| && OpenIs(open, events, n)
    ensures OpenIs(NextOpen(open, events[n], n), events, n + 1)
  {
    hide DownSince, NextOpen;
    var next, m := NextOpen(open, events[n], n), n + 1;
    forall c | c in next ensures DownSince(events, m, c, next[c]) {
      OpenStaysTrue(open, events, n, c);
    }
    forall c, i: nat | DownSince(events, m, c, i) ensures c in next {
      OpenStaysComplete(open, events, n, c, i);
    }
  }

  // The outages that ended before event n, in the order they ended.
  ghost predicate CompletedIs(completed: seq<Outage>, events: seq<Event>, n: nat) {
    && (forall o :: o in completed <==> IsOutage(events, o) && o.end < n)
    && (forall i, j :: 0 <= i < j < |completed| ==> completed[i].end < completed[j].end)
  }

  lemma CompletedStays(completed: seq<Outage>, events: seq<Event>, n: nat, open: map<string, nat>)
    requires n < |events| && CompletedIs(completed, events, n) && OpenIs(open, events, n)
    requires forall c :: Up(events[n], c) ==> c !in open
    ensures CompletedIs(completed, events, n + 1)
  {
    hide DownSince;
  }

  lemma CompletedNext(completed: seq<Outage>, events: seq<Event>, n: nat, open: map<string, nat>, c: string)
    requires n < |events| && CompletedIs(completed, events, n) && OpenIs(open, events, n)
    requires Up(events[n], c) && c in open
    ensures CompletedIs(completed + [Outage(c, open[c], n)], events, n + 1)
  {
    var last := Outage(c, open[c], n);
    var all := completed + [last];
    assert IsOutage(events, last);
    forall o ensures o in all <==> IsOutage(events, o) && o.end < n + 1 {
      if IsOutage(events, o) && o.end == n {
        assert o.component == c;
        DownSinceOnce(events, n, c, o.start, open[c]);
      }
      assert o in all <==> o in completed || o == last;
    }
    hide DownSince, IsOutage;
    forall i, j | 0 <= i < j < |all| ensures all[i].end < all[j].end {
      assert completed[i] in completed;
    }
  }

  // --- The report ---

  function EventKey(e: Event): string {
    e.component + "." + e.name
  }

  lemma KeyNames(component: string, name: string, link: string, state: string)
    requires '.' !in link && '.' !in state
    ensures component + "." + name == link + "." + state <==> component == link && name == state
  {
    var key, wanted := component + "." + name, link + "." + state;
    if key == wanted {
      assert key[|component|] == '.' && wanted[|link|] == '.';
      assert |component| == |link| && key[..|component|] == component && wanted[..|link|] == link;
      assert key[|component| + 1..] == name && wanted[|link| + 1..] == state;
    }
  }

  // The losses and recoveries of the two links, by the keys the report goes by.
  lemma LinkKeys(e: Event)
    ensures EventKey(e) == "ppp.down" || EventKey(e) == "mqtt.disconnected" <==> Down(e, e.component)
    ensures EventKey(e) == "ppp.up" || EventKey(e) == "mqtt.connected" <==> Up(e, e.component)
  {
    KeyNames(e.component, e.name, "ppp", "down");
    KeyNames(e.component, e.name, "ppp", "up");
    KeyNames(e.component, e.name, "mqtt", "disconnected");
    KeyNames(e.component, e.name, "mqtt", "connected");
    assert "ppp" + "." + "down" == "ppp.down" && "ppp" + "." + "up" == "ppp.up";
    assert "mqtt" + "." + "disconnected" == "mqtt.disconnected" && "mqtt" + "." + "connected" == "mqtt.connected";
  }

  // One line of the timeline.
  datatype Transition = Transition(boot: Option<string>, sequence: Option<int>, uptime: int, wallTime: Option<string>,
                                   event: string, reason: string)

  function TransitionOf(e: Event): Transition {
    Transition(e.boot, e.sequence, e.uptime, e.wallTime, EventKey(e), e.reason)
  }

  // A finished outage, with the boot it ended in.
  datatype Row = Row(component: string, boot: Option<string>, startSequence: Option<int>, endSequence: Option<int>,
                     duration: int)

  function RowOf(events: seq<Event>, o: Outage): Row
    requires o.start < |events| && o.end < |events|
  {
    var start, end := events[o.start], events[o.end];
    Row(o.component, end.boot, start.sequence, end.sequence, end.uptime - start.uptime)
  }

  /** An outage's duration is what its two uptimes differ by. With clocks that start at boot, that is the time it took
      if and only if both boots, usually one and the same, began at one moment. */
  lemma DurationIsElapsedIff(events: seq<Event>, o: Outage, bootedAt: Option<string> -> int)
    requires o.start < |events| && o.end < |events|
    ensures var start, end := events[o.start], events[o.end];
            RowOf(events, o).duration == (bootedAt(end.boot) + end.uptime) - (bootedAt(start.boot) + start.uptime)
            <==> bootedAt(start.boot) == bootedAt(end.boot)
  {
  }

  datatype Report = Report(eventCount: nat, bootCount: nat, counters: map<string, nat>, completed: seq<Row>,
                           open: map<string, Transition>, transitions: seq<Transition>)

  function Times(events: seq<Event>, key: string): nat {
    if events == [] then 0
    else
      var m := |events| - 1;
      Times(events[..m], key) + if EventKey(events[m]) == key then 1 else 0
  }

  ghost predicate CountersAre(counters: map<string, nat>, events: seq<Event>) {
    forall key ::
      (key in counters <==> Times(events, key) > 0) && (key in counters ==> counters[key] == Times(events, key))
  }

  function Boots(events: seq<Event>): set<Option<string>> {
    set e | e in events :: e.boot
  }

  predicate TransitionsAre(transitions: seq<Transition>, events: seq<Event>) {
    |transitions| == |events| && forall i :: 0 <= i < |events| ==> transitions[i] == TransitionOf(events[i])
  }

  predicate RowsAre(rows: seq<Row>, events: seq<Event>, outages: seq<Outage>) {
    |rows| == |outages| &&
    forall i :: 0 <= i < |rows| ==>
      outages[i].start < |events| && outages[i].end < |events| && rows[i] == RowOf(events, outages[i])
  }

  predicate OpenRowsAre(open: map<string, Transition>, events: seq<Event>, since: map<string, nat>) {
    open.Keys == since.Keys &&
    forall c :: c in open ==> since[c] < |events| && open[c] == TransitionOf(events[since[c]])
  }

  lemma CountersNext(counters: map<string, nat>, events: seq<Event>, n: nat)
    requires n < |events| && CountersAre(counters, events[..n])
    ensures var key := EventKey(events[n]);
            CountersAre(counters[key := (if key in counters then counters[key] else 0) + 1], events[..n + 1])
  {
    hide EventKey;
    assert events[..n + 1][..n] == events[..n];
  }

  lemma BootsNext(events: seq<Event>, n: nat)
    requires n < |events|
    ensures Boots(events[..n + 1]) == Boots(events[..n]) + {events[n].boot}
  {
    var before, after := events[..n], events[..n + 1];
    assert after == before + [events[n]];
    forall b | b in Boots(before) ensures b in Boots(after) {
      var e :| e in before && e.boot == b;
      assert e in after;
    }
    assert events[n] in after;
  }

  lemma NoneDownAtFirst(events: seq<Event>)
    ensures CompletedIs([], events, 0) && OpenIs(map[], events, 0)
  {
  }

  /** The report on a journal. Every outage that ended is listed once, from its first loss to its recovery, in the order
      of the recoveries, with its boot, sequence numbers and duration; the open ones are exactly the links that are
      down, with the event that took them down; each kind of event is counted; the timeline is the journal's. `outages`
      and `since` name the events. */
  method BuildReport(events: seq<Event>) returns (r: Report, ghost outages: seq<Outage>, ghost since: map<string, nat>)
    ensures CompletedIs(outages, events, |events|) && RowsAre(r.completed, events, outages)
    ensures OpenIs(since, events, |events|) && OpenRowsAre(r.open, events, since)
    ensures CountersAre(r.counters, events) && TransitionsAre(r.transitions, events)
    ensures r.eventCount == |events| && r.bootCount == |Boots(events)|
  {
    hide CompletedIs, OpenIs, DownSince, IsOutage, CountersAre, EventKey, Boots;
    hide TransitionsAre, RowsAre, OpenRowsAre, TransitionOf;
    var completed: seq<Row> := [];
    var open: map<string, Transition> := map[];
    var counters: map<string, nat> := map[];
    var transitions: seq<Transition> := [];
    var boots: set<Option<string>> := {};
    outages, since := [], map[];
    NoneDownAtFirst(events);
    NothingCounted(events);
    var n: nat := 0;
    while n < |events|
      invariant n <= |events|
      invariant CompletedIs(outages, events, n) && RowsAre(completed, events, outages)
      invariant OpenIs(since, events, n) && OpenRowsAre(open, events, since)
      invariant CountersAre(counters, events[..n]) && boots == Boots(events[..n])
      invariant TransitionsAre(transitions, events[..n])
    {
      var e := events[n];
      var c, key := e.component, EventKey(e);
      CountersNext(counters, events, n);
      counters := counters[key := (if key in counters then counters[key] else 0) + 1];
      BootsNext(events, n);
      boots := boots + {e.boot};
      TransitionsNext(transitions, events, n);
      transitions := transitions + [TransitionOf(e)];
      SinceIsOpen(open, events, since, c);
      OpenNext(since, events, n);
      ghost var before := since;
      since := NextOpen(since, e, n);
      LinkKeys(e);
      if key == "ppp.down" || key == "mqtt.disconnected" {
        CompletedStays(outages, events, n, before);
        if c !in open {
          OpenRowsGain(open, events, before, c, n);
          open := open[c := TransitionOf(e)];
        }
      } else if (key == "ppp.up" || key == "mqtt.connected") && c in open {
        CompletedNext(outages, events, n, before, c);
        var started := open[c];
        StartedBy(events, before[c], started);
        RowsNext(completed, events, outages, Outage(c, before[c], n));
        OpenRowsLose(open, events, before, c);
        outages := outages + [Outage(c, before[c], n)];
        completed := completed + [Row(c, e.boot, started.sequence, e.sequence, e.uptime - started.uptime)];
        open := open - {c};
      } else {
        CompletedStays(outages, events, n, before);
      }
      n := n + 1;
    }
    assert events[..n] == events;
    r := Report(|events|, |boots|, counters, completed, open, transitions);
  }

  lemma TransitionsNext(transitions: seq<Transition>, events: seq<Event>, n: nat)
    requires n < |events| && TransitionsAre(transitions, events[..n])
    ensures TransitionsAre(transitions + [TransitionOf(events[n])], events[..n + 1])
  {
    hide TransitionOf;
    assert forall i :: 0 <= i < n ==> events[..n][i] == events[..n + 1][i];
  }

  lemma RowsNext(rows: seq<Row>, events: seq<Event>, outages: seq<Outage>, o: Outage)
    requires RowsAre(rows, events, outages) && o.start < |events| && o.end < |events|
    ensures RowsAre(rows + [RowOf(events, o)], events, outages + [o])
  {
    hide RowOf;
  }

  lemma SinceIsOpen(open: map<string, Transition>, events: seq<Event>, since: map<string, nat>, c: string)
    requires OpenRowsAre(open, events, since)
    ensures c in open <==> c in since
    ensures c in open ==> since[c] < |events| && open[c] == TransitionOf(events[since[c]])
  {
    hide TransitionOf;
    assert c in open <==> c in open.Keys;
  }

  lemma OpenRowsGain(open: map<string, Transition>, events: seq<Event>, since: map<string, nat>, c: string, n: nat)
    requires OpenRowsAre(open, events, since) && n < |events|
    ensures OpenRowsAre(open[c := TransitionOf(events[n])], events, since[c := n])
  {
    hide TransitionOf;
  }

  lemma OpenRowsLose(open: map<string, Transition>, events: seq<Event>, since: map<string, nat>, c: string)
    requires OpenRowsAre(open, events, since)
    ensures OpenRowsAre(open - {c}, events, since - {c})
  {
    hide TransitionOf;
  }

  lemma StartedBy(events: seq<Event>, i: nat, t: Transition)
    requires i < |events| && t == TransitionOf(events[i])
    ensures t.sequence == events[i].sequence && t.uptime == events[i].uptime
  {
  }

  lemma NothingCounted(events: seq<Event>)
    ensures CountersAre(map[], events[..0]) && Boots(events[..0]) == {}
    ensures TransitionsAre([], events[..0]) && RowsAre([], events, []) && OpenRowsAre(map[], events, map[])
  {
  }
}
