/** From the producers to the report: with one producer the journal always loads. */
module JournalOrder {
  import opened EventReport
  import opened Options
  import EventQueue
  import JournalFiles

  // `some` is what is left of `all` after leaving out some elements.
  predicate Thinned(some: seq<int>, all: seq<nat>) {
    some == [] ||
    (all != [] && if some[0] == all[0] then Thinned(some[1..], all[1..]) else Thinned(some, all[1..]))
  }

  predicate Increasing(ids: seq<int>) {
    forall i, j :: 0 <= i < j < |ids| ==> ids[i] < ids[j]
  }

  lemma {:induction false} ThinnedIsIn(some: seq<int>, all: seq<nat>)
    requires Thinned(some, all)
    ensures forall x :: x in some ==> exists i :: 0 <= i < |all| && all[i] == x
    decreases |all|
  {
    if some != [] {
      var rest := if some[0] == all[0] then some[1..] else some;
      ThinnedIsIn(rest, all[1..]);
      forall x | x in some ensures exists i :: 0 <= i < |all| && all[i] == x {
        if x == all[0] {
          assert all[0] == x;
        } else {
          assert x in rest by { assert some == [some[0]] + some[1..]; }
          var i :| 0 <= i < |all[1..]| && all[1..][i] == x;
          assert all[i + 1] == x;
        }
      }
    }
  }

  lemma {:induction false} ThinnedIncreases(some: seq<int>, all: seq<nat>)
    requires Thinned(some, all) && EventQueue.Increasing(all)
    ensures Increasing(some)
    decreases |all|
  {
    if some != [] {
      assert forall i :: 0 <= i < |all[1..]| ==> all[1..][i] == all[i + 1];
      if some[0] == all[0] {
        ThinnedIncreases(some[1..], all[1..]);
        ThinnedIsIn(some[1..], all[1..]);
        forall i, j | 0 <= i < j < |some| ensures some[i] < some[j] {
          assert some[1..][j - 1] == some[j] && some[j] in some[1..];
          assert i > 0 ==> some[1..][i - 1] == some[i];
        }
      } else {
        ThinnedIncreases(some, all[1..]);
      }
    }
  }

  // The numbers of one boot's records, in journal order.
  function Numbers(events: seq<Event>, boot: string): seq<int> {
    if events == [] then []
    else
      var e := events[|events| - 1];
      Numbers(events[..|events| - 1], boot)
      + if e.boot == Some(boot) && e.sequence.Some? then [e.sequence.value] else []
  }

  lemma {:induction false} NumbersHold(events: seq<Event>, boot: string, i: nat)
    requires i < |events| && events[i].boot == Some(boot) && events[i].sequence.Some?
    ensures events[i].sequence.value in Numbers(events, boot)
  {
    var m := |events| - 1;
    if i < m {
      NumbersHold(events[..m], boot, i);
    }
  }

  lemma IncreasingFront(ids: seq<int>, last: int)
    requires Increasing(ids + [last])
    ensures Increasing(ids) && forall x :: x in ids ==> x < last
  {
    var all := ids + [last];
    assert forall i :: 0 <= i < |ids| ==> all[i] == ids[i];
    assert all[|ids|] == last;
  }

  lemma NumbersFront(events: seq<Event>, boot: string)
    requires events != [] && Increasing(Numbers(events, boot))
    ensures var front, last := events[..|events| - 1], events[|events| - 1];
            && Increasing(Numbers(front, boot))
            && (last.boot == Some(boot) && last.sequence.Some? ==>
                  forall x :: x in Numbers(front, boot) ==> x < last.sequence.value)
  {
    var front, last := events[..|events| - 1], events[|events| - 1];
    if last.boot == Some(boot) && last.sequence.Some? {
      IncreasingFront(Numbers(front, boot), last.sequence.value);
    } else {
      assert Numbers(events, boot) == Numbers(front, boot);
    }
  }

  // Each boot's numbers increase, so the journal is in order.
  lemma {:induction false} NumbersOrder(events: seq<Event>)
    requires forall boot: string :: Increasing(Numbers(events, boot))
    requires forall e :: e in events ==> Acceptable(e)
    ensures InOrder(events)
  {
    hide Increasing, Numbers;
    if events != [] {
      var m := |events| - 1;
      var front, last := events[..m], events[m];
      forall b: string ensures Increasing(Numbers(front, b)) {
        NumbersFront(events, b);
      }
      assert forall e :: e in front ==> e in events;
      NumbersOrder(front);
      assert last in events;
      NumbersFront(events, last.boot.value);
      forall i | 0 <= i < m && events[i].boot == last.boot
        ensures front[i] == events[i] && (events[i].sequence.Some? ==> events[i].sequence.value < last.sequence.value)
      {
        if events[i].sequence.Some? {
          NumbersHold(front, last.boot.value, i);
        }
      }
    }
  }

  // The records one boot left in the journal are among the events its writer took, in that order.
  ghost predicate FromWriter(events: seq<Event>, boot: string, producers: nat) {
    exists steps, t ::
      EventQueue.Runs(EventQueue.Init(producers), steps, t) && Thinned(Numbers(events, boot), t.taken)
  }

  lemma OneProducerIncreases(events: seq<Event>, boot: string, producers: nat)
    requires producers <= 1 && FromWriter(events, boot, producers)
    ensures Increasing(Numbers(events, boot))
  {
    var steps, t :| EventQueue.Runs(EventQueue.Init(producers), steps, t) && Thinned(Numbers(events, boot), t.taken);
    EventQueue.OneProducerIsTakenInOrder(producers, steps, t);
    ThinnedIncreases(Numbers(events, boot), t.taken);
  }

  lemma {:induction false} RecordsAcceptable(lines: seq<string>, read: string -> Decoded)
    requires Readable(lines, read)
    ensures forall e :: e in Records(lines, read) ==> Acceptable(e)
  {
    if lines != [] {
      var m := |lines| - 1;
      assert lines[m] in lines;
      RecordsAcceptable(lines[..m], read);
    }
  }

  /** With one producer in each boot, whatever events were dropped or failed to be written, whatever rotations and
      crashes happened: the reader loads the journal, and gets the newest records without a gap. */
  lemma OneProducerJournalLoads(events: seq<JournalFiles.Event>, limit: nat, count: nat, read: string -> Decoded)
    returns (k: nat)
    requires count >= 2 && forall e :: e in events ==> JournalFiles.Plausible(e, limit)
    requires var history := JournalFiles.Run(JournalFiles.Journal(map[], []), events, limit, count).history;
             && Readable(history, read)
             && forall boot: string :: FromWriter(Records(history, read), boot, 1)
    ensures var end := JournalFiles.Run(JournalFiles.Journal(map[], []), events, limit, count);
            && JournalFiles.HasNewest(end.history, k)
            && JournalFiles.ReadLines(end.files, count - 1) == end.history[k..]
            && Loads(JournalFiles.ReadLines(end.files, count - 1), read)
  {
    hide JournalFiles.Run, JournalFiles.ReadLines, Readable, Records, FromWriter, Increasing;
    var history := JournalFiles.Run(JournalFiles.Journal(map[], []), events, limit, count).history;
    RecordsAcceptable(history, read);
    forall boot: string ensures Increasing(Numbers(Records(history, read), boot)) {
      OneProducerIncreases(Records(history, read), boot, 1);
    }
    NumbersOrder(Records(history, read));
    k := JournalLoads(events, limit, count, read);
  }
}
