/** The RAM ring of the newest events, as the producers fill it under the journal mutex and the API reads it. */
module EventRing {
  import opened RateLimiter

  const CAPACITY: nat := 48

  // `event` stands for everything the record says besides its sequence number.
  datatype Record = Record(sequence: nat, event: string)

  // The newest `limit` of some events, oldest first; a limit of 0 or over the capacity means the capacity.
  function Newest(log: seq<Record>, limit: nat): seq<Record> {
    var wanted := if limit == 0 || limit > CAPACITY then CAPACITY else limit;
    log[if |log| <= wanted then 0 else |log| - wanted..]
  }

  /** A reader who asks for none or for more than the ring holds gets up to 48 events, any other up to as many as asked
      for: the last ones there were, and fewer only when there were no more. */
  lemma NewestIs(log: seq<Record>, limit: nat)
    ensures var r, asked := Newest(log, limit), if 1 <= limit <= 48 then limit else 48;
            |r| == (if |log| < asked then |log| else asked) && r == log[|log| - |r|..]
  {
  }

  // Event `i` of the newest `count` sits in slot `i % CAPACITY`.
  ghost predicate HoldsTail(ring: seq<Record>, log: seq<Record>, count: nat) {
    |ring| == CAPACITY && count <= |log| && forall i :: |log| - count <= i < |log| ==> ring[i % CAPACITY] == log[i]
  }

  lemma PushHoldsTail(ring: seq<Record>, log: seq<Record>, count: nat, record: Record)
    requires HoldsTail(ring, log, count) && count <= CAPACITY
    ensures HoldsTail(ring[|log| % CAPACITY := record], log + [record], if count < CAPACITY then count + 1 else count)
  {
    var n := |log|;
    forall i | n + 1 - CAPACITY <= i < n && 0 <= i
      ensures i % CAPACITY != n % CAPACITY
    {
      DistinctSlots(i, n);
    }
  }

  // `wanted` sits in the ring from slot `oldest` on, wrapping around.
  ghost predicate LaidOut(ring: seq<Record>, oldest: nat, wanted: seq<Record>) {
    |ring| == CAPACITY && forall i :: 0 <= i < |wanted| ==> ring[(oldest + i) % CAPACITY] == wanted[i]
  }

  function StartSlot(head: nat, n: nat): (slot: nat)
    requires head < CAPACITY && n <= CAPACITY
    ensures slot < CAPACITY
  {
    (head + CAPACITY - n) % CAPACITY
  }

  // Where a reader finds the newest `n` events.
  lemma TailIsLaidOut(ring: seq<Record>, log: seq<Record>, count: nat, n: nat)
    requires HoldsTail(ring, log, count) && n <= count <= CAPACITY
    ensures LaidOut(ring, StartSlot(|log| % CAPACITY, n), log[|log| - n..])
  {
    var wanted := log[|log| - n..];
    forall i | 0 <= i < n
      ensures ring[((|log| % CAPACITY + CAPACITY - n) % CAPACITY + i) % CAPACITY] == wanted[i]
    {
      SlotOf(|log|, n, i);
    }
  }

  class Ring {
    const limiter: Limiter
    const ring: array<Record>
    const snapshot: array<Record>
    var head: nat
    var count: nat
    var nextSequence: nat
    // Every event accepted since boot.
    ghost var log: seq<Record>

    ghost predicate Valid()
      reads this, ring, limiter.slots, snapshot
    {
      && limiter.slots.Length == SLOTS
      && ring.Length == CAPACITY && snapshot.Length == CAPACITY && ring != snapshot
      && nextSequence == |log|
      && (forall i :: 0 <= i < |log| ==> log[i].sequence == i + 1)
      && head == |log| % CAPACITY
      && count == (if |log| < CAPACITY then |log| else CAPACITY)
      && HoldsTail(ring[..], log, count)
    }

    constructor ()
      ensures Valid() && log == [] && fresh(limiter.slots) && fresh(ring) && fresh(snapshot)
    {
      limiter := new Limiter();
      ring := new Record[CAPACITY](_ => Record(0, ""));
      snapshot := new Record[CAPACITY](_ => Record(0, ""));
      head, count, nextSequence, log := 0, 0, 0, [];
    }

    // The ring write of one accepted event.
    method Push(event: string) returns (record: Record)
      requires Valid()
      modifies this, ring
      ensures Valid()
      ensures record == Record(|old(log)| + 1, event) && log == old(log) + [record]
    {
      nextSequence := nextSequence + 1;
      record := Record(nextSequence, event);
      hide HoldsTail;
      PushHoldsTail(ring[..], log, count, record);
      assert ring[..][head := record] == old(ring[..])[head := record];
      ring[head] := record;
      log := log + [record];
      assert (head + 1) % CAPACITY == |log| % CAPACITY by {
        NextHead(|log| - 1);
      }
      head := (head + 1) % CAPACITY;
      if count < CAPACITY {
        count := count + 1;
      }
    }

    /** The critical section of an emit: rate-limited, or numbered and stored. */
    method Emit(event: string, key: Key, now: nat, interval: nat) returns (accepted: bool, record: Record)
      requires Valid()
      modifies this, ring, limiter.slots
      ensures Valid()
      ensures var call := Call(key, now, interval, |old(log)|);
              && accepted == !Suppresses(old(limiter.slots[..]), call)
              && limiter.slots[..] == After(old(limiter.slots[..]), call)
      ensures if accepted then record == Record(|old(log)| + 1, event) && log == old(log) + [record]
              else log == old(log)
    {
      record := Record(0, "");
      var limited := limiter.IsRateLimited(Call(key, now, interval, nextSequence));
      accepted := !limited;
      if accepted {
        record := Push(event);
      }
    }

    /** The events handed to an API visitor. */
    method Visit(limit: nat) returns (events: seq<Record>)
      requires Valid()
      modifies snapshot
      ensures Valid() && events == Newest(log, limit)
      ensures forall i :: 0 <= i < |events| ==> events[i].sequence == |log| - |events| + 1 + i
    {
      hide HoldsTail, LaidOut, StartSlot;
      var wanted := if limit == 0 || limit > CAPACITY then CAPACITY else limit;
      var n := if count < wanted then count else wanted;
      ghost var tail := log[|log| - n..];
      TailIsLaidOut(ring[..], log, count, n);
      CopySlots(ring, snapshot, StartSlot(head, n), n, tail);
      events := snapshot[..n];
    }
  }

  // The copy made under the mutex: `wanted` sits in the ring from slot `oldest` on.
  method CopySlots(ring: array<Record>, snapshot: array<Record>, oldest: nat, n: nat, ghost wanted: seq<Record>)
    requires ring != snapshot && ring.Length == CAPACITY == snapshot.Length && |wanted| == n <= CAPACITY
    requires LaidOut(ring[..], oldest, wanted)
    modifies snapshot
    ensures snapshot[..n] == wanted
  {
    for i := 0 to n
      invariant forall k :: 0 <= k < i ==> snapshot[k] == wanted[k]
    {
      snapshot[i] := ring[(oldest + i) % CAPACITY];
    }
  }

  lemma NextHead(n: nat)
    ensures (n % CAPACITY + 1) % CAPACITY == (n + 1) % CAPACITY
  {
  }

  lemma DistinctSlots(i: nat, n: nat)
    requires n - CAPACITY < i < n
    ensures i % CAPACITY != n % CAPACITY
  {
  }

  lemma SlotOf(total: nat, n: nat, i: nat)
    requires i < n <= CAPACITY && n <= total
    ensures ((total % CAPACITY + CAPACITY - n) % CAPACITY + i) % CAPACITY == (total - n + i) % CAPACITY
  {
  }
}
