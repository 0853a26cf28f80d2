/** The bounded table that limits how often an event may be repeated. */
module RateLimiter {

  const SLOTS: nat := 24

  datatype Key = Key(component: string, event: string)

  datatype Slot = Slot(used: bool, lastMs: nat, key: Key)

  // One producer's question: may this event be emitted now? `sequence` picks the victim in a full table.
  datatype Call = Call(key: Key, now: nat, interval: nat, sequence: nat)

  predicate RateLimited(previouslyEmitted: bool, lastMs: nat, now: nat, interval: nat) {
    interval > 0 && previouslyEmitted && now >= lastMs && now - lastMs < interval
  }

  // The slot of a key, or the table size.
  function Find(slots: seq<Slot>, key: Key): (i: nat)
    ensures i <= |slots|
    ensures i < |slots| ==> slots[i].used && slots[i].key == key
    ensures forall j :: 0 <= j < i ==> !(slots[j].used && slots[j].key == key)
  {
    if slots == [] || (slots[0].used && slots[0].key == key) then 0 else 1 + Find(slots[1..], key)
  }

  // The first slot never used, or the table size.
  function Free(slots: seq<Slot>): (i: nat)
    ensures i <= |slots|
    ensures i < |slots| ==> !slots[i].used
    ensures forall j :: 0 <= j < i ==> slots[j].used
  {
    if slots == [] || !slots[0].used then 0 else 1 + Free(slots[1..])
  }

  predicate Suppresses(slots: seq<Slot>, call: Call) {
    var i := Find(slots, call.key);
    call.interval > 0 && i < |slots| && RateLimited(true, slots[i].lastMs, call.now, call.interval)
  }

  // The slot an accepted call writes.
  function Target(slots: seq<Slot>, call: Call): (i: nat)
    requires |slots| == SLOTS
    ensures i < SLOTS
  {
    if Find(slots, call.key) < SLOTS then Find(slots, call.key)
    else if Free(slots) < SLOTS then Free(slots)
    else call.sequence % SLOTS
  }

  function After(slots: seq<Slot>, call: Call): (r: seq<Slot>)
    requires |slots| == SLOTS
    ensures |r| == SLOTS
  {
    if call.interval == 0 || Suppresses(slots, call) then slots
    else slots[Target(slots, call) := Slot(true, call.now, call.key)]
  }

  class Limiter {
    const slots: array<Slot>

    constructor ()
      ensures slots.Length == SLOTS && fresh(slots)
      ensures forall slot :: slot in slots[..] ==> !slot.used
    {
      slots := new Slot[SLOTS](_ => Slot(false, 0, Key("", "")));
    }

    /** One pass over the table under the journal's mutex. */
    method IsRateLimited(call: Call) returns (limited: bool)
      requires slots.Length == SLOTS
      modifies slots
      ensures limited == Suppresses(old(slots[..]), call)
      ensures slots[..] == After(old(slots[..]), call)
    {
      if call.interval == 0 {
        return false;
      }
      ghost var table := slots[..];
      var available: nat := SLOTS;
      var i := 0;
      while i < SLOTS
        invariant i <= SLOTS && slots[..] == table
        invariant forall j :: 0 <= j < i ==> !(table[j].used && table[j].key == call.key)
        invariant available <= SLOTS && (available < SLOTS ==> available < i && !table[available].used)
        invariant forall j :: 0 <= j < i && j < available ==> table[j].used
      {
        var slot := slots[i];
        assert slot == table[i];
        if !slot.used && available == SLOTS {
          available := i;
        }
        if slot.used && slot.key == call.key {
          assert Find(table, call.key) == i;
          if RateLimited(true, slot.lastMs, call.now, call.interval) {
            return true;
          }
          slots[i] := slot.(lastMs := call.now);
          return false;
        }
        i := i + 1;
      }
      assert Find(table, call.key) == SLOTS && Free(table) == available;
      if available == SLOTS {
        available := call.sequence % SLOTS;
      }
      slots[available] := Slot(true, call.now, call.key);
      return false;
    }
  }

  // --- What the table guarantees over runs ---

  predicate Distinct(slots: seq<Slot>) {
    forall i, j :: 0 <= i < j < |slots| && slots[i].used && slots[j].used ==> slots[i].key != slots[j].key
  }

  // The table after some calls.
  function Table(calls: seq<Call>): (r: seq<Slot>)
    ensures |r| == SLOTS
  {
    if calls == [] then seq(SLOTS, _ => Slot(false, 0, Key("", "")))
    else After(Table(calls[..|calls| - 1]), calls[|calls| - 1])
  }

  // Call `i` of a run is rate-limited and gets through.
  predicate Accepted(calls: seq<Call>, i: nat)
    requires i < |calls|
  {
    calls[i].interval > 0 && !Suppresses(Table(calls[..i]), calls[i])
  }

  // `i` is the last accepted call of `key` among the first `n`.
  predicate LastAccepted(calls: seq<Call>, key: Key, i: nat, n: nat)
    requires i < n <= |calls|
  {
    Accepted(calls, i) && calls[i].key == key && forall j :: i < j < n && Accepted(calls, j) ==> calls[j].key != key
  }

  lemma TableStep(calls: seq<Call>, n: nat)
    requires n < |calls|
    ensures Table(calls[..n + 1]) == After(Table(calls[..n]), calls[n])
  {
    assert calls[..n + 1][..n] == calls[..n];
  }

  lemma AfterDistinct(slots: seq<Slot>, call: Call)
    requires |slots| == SLOTS && Distinct(slots)
    ensures Distinct(After(slots, call))
  {
    hide Suppresses;
    var t := Target(slots, call);
    forall j | 0 <= j < SLOTS && j != t && slots[j].used
      ensures slots[j].key != call.key
    {
    }
  }

  // Slot `s` holds the time its key was last accepted.
  ghost predicate Dated(calls: seq<Call>, n: nat, slot: Slot)
    requires n <= |calls|
  {
    exists i :: 0 <= i < n && LastAccepted(calls, slot.key, i, n) && slot.lastMs == calls[i].now
  }

  // A slot keeps its date while other keys, or nothing, are accepted.
  lemma StaysDated(calls: seq<Call>, m: nat, slot: Slot)
    requires m < |calls| && Dated(calls, m, slot)
    requires Accepted(calls, m) ==> calls[m].key != slot.key
    ensures Dated(calls, m + 1, slot)
  {
    hide Accepted;
    var i :| 0 <= i < m && LastAccepted(calls, slot.key, i, m) && slot.lastMs == calls[i].now;
    assert LastAccepted(calls, slot.key, i, m + 1);
  }

  lemma BecomesDated(calls: seq<Call>, m: nat)
    requires m < |calls| && Accepted(calls, m)
    ensures Dated(calls, m + 1, Slot(true, calls[m].now, calls[m].key))
  {
    hide Accepted;
    assert LastAccepted(calls, calls[m].key, m, m + 1);
  }

  /** Slot keys stay pairwise distinct, and every slot in use holds the time its key was last accepted. */
  lemma {:induction false} TableInvariant(calls: seq<Call>, n: nat)
    requires n <= |calls|
    ensures Distinct(Table(calls[..n]))
    ensures forall s :: 0 <= s < SLOTS && Table(calls[..n])[s].used ==> Dated(calls, n, Table(calls[..n])[s])
  {
    hide Dated, Suppresses, Table;
    if n == 0 {
      EmptyTable(calls);
    } else {
      var m := n - 1;
      TableInvariant(calls, m);
      TableStep(calls, m);
      var before, after := Table(calls[..m]), Table(calls[..n]);
      AfterDistinct(before, calls[m]);
      forall s | 0 <= s < SLOTS && after[s].used
        ensures Dated(calls, n, after[s])
      {
        if Accepted(calls, m) && s == Target(before, calls[m]) {
          BecomesDated(calls, m);
        } else {
          StaysDated(calls, m, before[s]);
        }
      }
    }
  }

  lemma EmptyTable(calls: seq<Call>)
    ensures forall s :: 0 <= s < SLOTS ==> !Table(calls[..0])[s].used
  {
  }

  /** An event is suppressed only if the same key was accepted less than the call's interval before. */
  lemma SuppressedOnlyAfterAcceptance(calls: seq<Call>, n: nat)
    requires n < |calls| && Suppresses(Table(calls[..n]), calls[n])
    ensures exists i :: 0 <= i < n && LastAccepted(calls, calls[n].key, i, n) &&
                        calls[i].now <= calls[n].now < calls[i].now + calls[n].interval
  {
    TableInvariant(calls, n);
    var t := Table(calls[..n]);
    var s := Find(t, calls[n].key);
    assert Dated(calls, n, t[s]);
  }

  predicate Monotone(calls: seq<Call>) {
    forall i, j :: 0 <= i < j < |calls| ==> calls[i].now <= calls[j].now
  }

  predicate KeysIn(calls: seq<Call>, keys: set<Key>) {
    forall i :: 0 <= i < |calls| && calls[i].interval > 0 ==> calls[i].key in keys
  }

  // The keys of the slots in use among the first `n`.
  function UsedKeys(slots: seq<Slot>): set<Key> {
    set i | 0 <= i < |slots| && slots[i].used :: slots[i].key
  }

  lemma {:induction false} FullTableHasManyKeys(slots: seq<Slot>)
    requires Distinct(slots) && forall i :: 0 <= i < |slots| ==> slots[i].used
    ensures |UsedKeys(slots)| == |slots|
  {
    if slots != [] {
      var m := |slots| - 1;
      var front := slots[..m];
      FullTableHasManyKeys(front);
      assert UsedKeys(slots) == UsedKeys(front) + {slots[m].key} by {
        forall k | k in UsedKeys(slots)
          ensures k in UsedKeys(front) + {slots[m].key}
        {
          var i :| 0 <= i < |slots| && slots[i].used && slots[i].key == k;
          assert i < m ==> front[i] == slots[i];
        }
        forall k | k in UsedKeys(front) + {slots[m].key}
          ensures k in UsedKeys(slots)
        {
          if k in UsedKeys(front) {
            var i :| 0 <= i < |front| && front[i].used && front[i].key == k;
            assert slots[i] == front[i];
          }
        }
      }
      assert slots[m].key !in UsedKeys(front);
    }
  }

  // With at most as many keys as slots, no slot is ever taken from a key.
  lemma {:induction false} NoKeyForgotten(calls: seq<Call>, n: nat, keys: set<Key>)
    requires n <= |calls| && KeysIn(calls, keys) && |keys| <= SLOTS
    ensures UsedKeys(Table(calls[..n])) <= keys
    ensures forall i :: 0 <= i < n && Accepted(calls, i) ==> calls[i].key in UsedKeys(Table(calls[..n]))
  {
    hide Accepted, Suppresses, Table, Distinct;
    if n == 0 {
      EmptyTable(calls);
    } else {
      var m := n - 1;
      NoKeyForgotten(calls, m, keys);
      TableInvariant(calls, m);
      TableStep(calls, m);
      var before := Table(calls[..m]);
      if Accepted(calls, m) {
        AcceptedStep(calls, m);
        RoomForKey(before, calls[m], keys);
        KeysGrow(before, calls[m]);
      } else {
        SuppressedStep(calls, m);
      }
    }
  }

  lemma AcceptedStep(calls: seq<Call>, m: nat)
    requires m < |calls| && Accepted(calls, m)
    ensures calls[m].interval > 0 && !Suppresses(Table(calls[..m]), calls[m])
  {
  }

  lemma SuppressedStep(calls: seq<Call>, m: nat)
    requires m < |calls| && !Accepted(calls, m)
    ensures Table(calls[..m + 1]) == Table(calls[..m])
  {
    TableStep(calls, m);
  }

  lemma RoomForKey(slots: seq<Slot>, call: Call, keys: set<Key>)
    requires |slots| == SLOTS && Distinct(slots) && UsedKeys(slots) <= keys && |keys| <= SLOTS && call.key in keys
    ensures var t := slots[Target(slots, call)]; t.used ==> t.key == call.key
  {
    if Find(slots, call.key) == SLOTS && Free(slots) == SLOTS {
      FullTableHasManyKeys(slots);
      assert call.key !in UsedKeys(slots);
      Subset(UsedKeys(slots) + {call.key}, keys);
    }
  }

  lemma {:induction false} Subset<T>(a: set<T>, b: set<T>)
    requires a <= b
    ensures |a| <= |b|
  {
    if a != {} {
      var x :| x in a;
      Subset(a - {x}, b - {x});
    }
  }

  lemma KeysGrow(slots: seq<Slot>, call: Call)
    requires |slots| == SLOTS && call.interval > 0 && !Suppresses(slots, call)
    requires var t := slots[Target(slots, call)]; t.used ==> t.key == call.key
    ensures UsedKeys(After(slots, call)) == UsedKeys(slots) + {call.key}
  {
    var t, after := Target(slots, call), After(slots, call);
    forall k
      ensures k in UsedKeys(after) <==> k in UsedKeys(slots) + {call.key}
    {
      if k in UsedKeys(after) {
        var i :| 0 <= i < |after| && after[i].used && after[i].key == k;
        assert i != t ==> after[i] == slots[i];
      }
      if k in UsedKeys(slots) {
        var i :| 0 <= i < |slots| && slots[i].used && slots[i].key == k;
        assert after[i].used && after[i].key == k;
      }
      assert after[t].used && after[t].key == call.key;
    }
  }

  /** With a monotone clock and no more keys than slots, two accepted events of one key are never closer than the
      later one's interval. */
  lemma AcceptedEventsAreSpaced(calls: seq<Call>, i: nat, n: nat, keys: set<Key>)
    requires i < n < |calls| && Monotone(calls) && KeysIn(calls, keys) && |keys| <= 24
    requires Accepted(calls, i) && Accepted(calls, n) && calls[i].key == calls[n].key
    ensures calls[n].now >= calls[i].now + calls[n].interval
  {
    hide Accepted, Table, Distinct;
    AcceptedStep(calls, n);
    NoKeyForgotten(calls, n, keys);
    TableInvariant(calls, n);
    var t := Table(calls[..n]);
    var s :| 0 <= s < SLOTS && t[s].used && t[s].key == calls[n].key;
    var f := Find(t, calls[n].key);
    assert Dated(calls, n, t[f]);
    var last :| 0 <= last < n && LastAccepted(calls, calls[n].key, last, n) && t[f].lastMs == calls[last].now;
    assert i <= last;
    assert calls[i].now <= calls[last].now <= calls[n].now;
  }

  /** And an event is suppressed exactly when the last accepted one of its key is less than its own interval away. */
  lemma SuppressedIff(calls: seq<Call>, n: nat, keys: set<Key>)
    requires n < |calls| && Monotone(calls) && KeysIn(calls, keys) && |keys| <= 24
    ensures Suppresses(Table(calls[..n]), calls[n])
            <==> exists i :: 0 <= i < n && LastAccepted(calls, calls[n].key, i, n)
                             && calls[n].now < calls[i].now + calls[n].interval
  {
    if Suppresses(Table(calls[..n]), calls[n]) {
      SuppressedOnlyAfterAcceptance(calls, n);
    }
    if i :| 0 <= i < n && LastAccepted(calls, calls[n].key, i, n) && calls[n].now < calls[i].now + calls[n].interval {
      assert calls[i].now <= calls[n].now;
      RecentIsSuppressed(calls, i, n, keys);
    }
  }

  lemma RecentIsSuppressed(calls: seq<Call>, i: nat, n: nat, keys: set<Key>)
    requires i < n < |calls| && Monotone(calls) && KeysIn(calls, keys) && |keys| <= SLOTS
    requires LastAccepted(calls, calls[n].key, i, n) && calls[i].now <= calls[n].now < calls[i].now + calls[n].interval
    ensures Suppresses(Table(calls[..n]), calls[n])
  {
    hide Accepted, Table, Distinct;
    NoKeyForgotten(calls, n, keys);
    TableInvariant(calls, n);
    var t := Table(calls[..n]);
    var s :| 0 <= s < SLOTS && t[s].used && t[s].key == calls[n].key;
    var f := Find(t, calls[n].key);
    assert Dated(calls, n, t[f]);
    var last :| 0 <= last < n && LastAccepted(calls, calls[n].key, last, n) && t[f].lastMs == calls[last].now;
    assert i == last;
  }

  /** What happens beyond that: a new key takes a limiter away exactly when every slot is in use, and then from the
      slot its sequence number picks. */
  lemma NewKeyForgetsIff(slots: seq<Slot>, call: Call, victim: nat)
    requires |slots| == 24 && Distinct(slots) && call.interval > 0 && Find(slots, call.key) == 24
    requires victim < 24 && slots[victim].used
    ensures Find(After(slots, call), slots[victim].key) == 24 <==>
            (forall j :: 0 <= j < 24 ==> slots[j].used) && victim == call.sequence % 24
  {
    var t, after := Target(slots, call), After(slots, call);
    assert slots[victim].key != call.key;
    if t != victim {
      assert after[victim] == slots[victim];
    }
  }
}
