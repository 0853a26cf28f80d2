/** The zero-wait queue between the event producers and the journal writer, in every interleaving.
    Events are named by their sequence numbers. Each step is one critical section, one queue operation or one
    atomic counter update; the steps of different tasks interleave freely. */
module EventQueue {
  import opened Texts

  const DEPTH: nat := 24

  // What a producer task holds between two of its steps.
  datatype Producer =
    | Idle
    | Holding(id: nat, critical: bool)  // numbered, mutex released, not yet sent
    | Evicting(id: nat)                 // the queue was full and the event is critical
    | Evicted(id: nat, victim: nat)     // an older event was taken off the queue and not yet counted
    | Resending(id: nat)
    | Sent                              // the event is in the queue, not yet counted as queued
    | Rejected(id: nat)                 // no room, not yet counted as dropped

  datatype Writer = Waiting | Writing(id: nat)

  datatype State = State(
    producers: seq<Producer>,
    writer: Writer,
    queue: seq<nat>,
    // the status counters
    emitted: nat,
    rateLimited: nat,
    queued: nat,
    queueDropped: nat,
    written: nat,
    failures: nat,
    // which events the counters stand for
    busyLosses: nat,
    evicted: seq<nat>,
    rejected: seq<nat>,
    stored: seq<nat>,
    failed: seq<nat>,
    // every event the writer has taken off the queue, in that order
    taken: seq<nat>,
    // which events are critical, and what has entered and left the queue so far, in that order
    critical: set<nat>,
    entered: seq<nat>,
    left: seq<nat>
  )

  datatype Step =
    | MutexBusy(p: nat)
    | Suppress(p: nat)
    | Number(p: nat, critical: bool)
    | Send(p: nat)
    | Evict(p: nat)
    | CountVictim(p: nat)
    | Resend(p: nat)
    | CountQueued(p: nat)
    | CountRejected(p: nat)
    | Take
    | Finish(ok: bool)

  function Init(n: nat): State {
    State(seq(n, _ => Idle), Waiting, [], 0, 0, 0, 0, 0, 0, 0, [], [], [], [], [], {}, [], [])
  }

  predicate Enabled(s: State, step: Step) {
    match step
    case Take => s.writer.Waiting? && s.queue != []
    case Finish(_) => s.writer.Writing?
    case MutexBusy(p) => p < |s.producers| && s.producers[p].Idle?
    case Suppress(p) => p < |s.producers| && s.producers[p].Idle?
    case Number(p, _) => p < |s.producers| && s.producers[p].Idle?
    case Send(p) => p < |s.producers| && s.producers[p].Holding?
    case Evict(p) => p < |s.producers| && s.producers[p].Evicting?
    case CountVictim(p) => p < |s.producers| && s.producers[p].Evicted?
    case Resend(p) => p < |s.producers| && s.producers[p].Resending?
    case CountQueued(p) => p < |s.producers| && s.producers[p].Sent?
    case CountRejected(p) => p < |s.producers| && s.producers[p].Rejected?
  }

  function Queued(s: State, p: nat, id: nat): State
    requires p < |s.producers|
  {
    s.(queue := s.queue + [id], entered := s.entered + [id], producers := s.producers[p := Sent])
  }

  function Dequeued(s: State): State
    requires s.queue != []
  {
    s.(queue := s.queue[1..], left := s.left + [s.queue[0]])
  }

  function Apply(s: State, step: Step): State
    requires Enabled(s, step)
  {
    match step
    case MutexBusy(p) => s.(queueDropped := s.queueDropped + 1, busyLosses := s.busyLosses + 1)
    case Suppress(p) => s.(rateLimited := s.rateLimited + 1)
    case Number(p, critical) =>
      s.(emitted := s.emitted + 1, producers := s.producers[p := Holding(s.emitted + 1, critical)],
         critical := if critical then s.critical + {s.emitted + 1} else s.critical)
    case Send(p) =>
      var h := s.producers[p];
      if |s.queue| < DEPTH then Queued(s, p, h.id)
      else s.(producers := s.producers[p := if h.critical then Evicting(h.id) else Rejected(h.id)])
    case Evict(p) =>
      var id := s.producers[p].id;
      if s.queue == [] then s.(producers := s.producers[p := Rejected(id)])
      else Dequeued(s).(producers := s.producers[p := Evicted(id, s.queue[0])])
    case CountVictim(p) =>
      var e := s.producers[p];
      s.(queueDropped := s.queueDropped + 1, evicted := s.evicted + [e.victim],
         producers := s.producers[p := Resending(e.id)])
    case Resend(p) =>
      var id := s.producers[p].id;
      if |s.queue| < DEPTH then Queued(s, p, id)
      else s.(producers := s.producers[p := Rejected(id)])
    case CountQueued(p) => s.(queued := s.queued + 1, producers := s.producers[p := Idle])
    case CountRejected(p) =>
      s.(queueDropped := s.queueDropped + 1, rejected := s.rejected + [s.producers[p].id],
         producers := s.producers[p := Idle])
    case Take => Dequeued(s).(writer := Writing(s.queue[0]), taken := s.taken + [s.queue[0]])
    case Finish(ok) =>
      if ok then s.(written := s.written + 1, stored := s.stored + [s.writer.id], writer := Waiting)
      else s.(failures := s.failures + 1, failed := s.failed + [s.writer.id], writer := Waiting)
  }

  // `t` is reached from `s` by some steps of any tasks.
  predicate Runs(s: State, steps: seq<Step>, t: State)
    decreases |steps|
  {
    if steps == [] then s == t else Enabled(s, steps[0]) && Runs(Apply(s, steps[0]), steps[1..], t)
  }

  // --- Conservation ---

  // How often event `id` occurs in a list, and in what a task holds.
  function Occurs(ids: seq<nat>, id: nat): nat {
    multiset(ids)[id]
  }

  function Held(p: Producer, id: nat): nat {
    match p
    case Idle | Sent => 0
    case Evicted(own, victim) => (if own == id then 1 else 0) + (if victim == id then 1 else 0)
    case Holding(own, _) => if own == id then 1 else 0
    case Evicting(own) => if own == id then 1 else 0
    case Resending(own) => if own == id then 1 else 0
    case Rejected(own) => if own == id then 1 else 0
  }

  function HeldByAll(ps: seq<Producer>, id: nat): nat {
    if ps == [] then 0 else HeldByAll(ps[..|ps| - 1], id) + Held(ps[|ps| - 1], id)
  }

  // In how many places event `id` is: queued, in a task's hands, stored, failed, evicted or rejected.
  function Places(s: State, id: nat): nat {
    Occurs(s.queue, id) + HeldByAll(s.producers, id) + (if s.writer == Writing(id) then 1 else 0) +
    Occurs(s.stored, id) + Occurs(s.failed, id) + Occurs(s.evicted, id) + Occurs(s.rejected, id)
  }

  // Every emitted event is in exactly one place, nothing else is anywhere, and every loss is counted once.
  ghost predicate Conserved(s: State) {
    && (forall id: nat :: Places(s, id) == if 1 <= id <= s.emitted then 1 else 0)
    && s.queueDropped == s.busyLosses + |s.evicted| + |s.rejected|
    && s.written == |s.stored| && s.failures == |s.failed|
    && |s.queue| <= DEPTH
  }

  lemma {:induction false} HeldAfterUpdate(ps: seq<Producer>, p: nat, next: Producer, id: nat)
    requires p < |ps|
    ensures HeldByAll(ps[p := next], id) + Held(ps[p], id) == HeldByAll(ps, id) + Held(next, id)
  {
    hide Held;
    var m := |ps| - 1;
    if p < m {
      HeldAfterUpdate(ps[..m], p, next, id);
      assert ps[p := next][..m] == ps[..m][p := next];
    } else {
      assert ps[p := next][..m] == ps[..m];
    }
  }

  lemma {:induction false} NothingHeld(n: nat, id: nat)
    ensures HeldByAll(seq(n, _ => Idle), id) == 0
  {
    if n > 0 {
      NothingHeld(n - 1, id);
      assert seq(n, _ => Idle)[..n - 1] == seq(n - 1, _ => Idle);
    }
  }

  lemma OccursInFront(q: seq<nat>, id: nat)
    requires q != []
    ensures Occurs(q, id) == Occurs(q[1..], id) + (if q[0] == id then 1 else 0)
  {
    assert q == [q[0]] + q[1..];
  }

  lemma OccursAtEnd(q: seq<nat>, last: nat, id: nat)
    ensures Occurs(q + [last], id) == Occurs(q, id) + (if last == id then 1 else 0)
  {
  }

  predicate ByProducer(step: Step) {
    step.Number? || step.Send? || step.Evict? || step.CountVictim? || step.Resend? || step.CountQueued? ||
    step.CountRejected?
  }

  // What a producer's step does to its own hands and to the three lists it may append to or take from.
  lemma ProducerMoves(s: State, step: Step, id: nat)
    requires Enabled(s, step) && ByProducer(step)
    ensures var t := Apply(s, step);
            Held(t.producers[step.p], id) + Occurs(t.queue, id) + Occurs(t.evicted, id) + Occurs(t.rejected, id)
            == Held(s.producers[step.p], id) + Occurs(s.queue, id) + Occurs(s.evicted, id) + Occurs(s.rejected, id)
               + if step.Number? && id == s.emitted + 1 then 1 else 0
  {
    hide Occurs;
    match step
    case Send(p) => OccursAtEnd(s.queue, s.producers[p].id, id);
    case Resend(p) => OccursAtEnd(s.queue, s.producers[p].id, id);
    case Evict(p) =>
      if s.queue != [] {
        OccursInFront(s.queue, id);
      }
    case CountVictim(p) => OccursAtEnd(s.evicted, s.producers[p].victim, id);
    case CountRejected(p) => OccursAtEnd(s.rejected, s.producers[p].id, id);
    case _ =>
  }

  lemma ProducerTouches(s: State, step: Step)
    requires Enabled(s, step) && ByProducer(step)
    ensures var t := Apply(s, step);
            && |t.producers| == |s.producers| && t.producers == s.producers[step.p := t.producers[step.p]]
            && t.writer == s.writer && t.stored == s.stored && t.failed == s.failed && t.taken == s.taken
  {
  }

  lemma WriterMoves(s: State, step: Step, id: nat)
    requires Enabled(s, step) && !ByProducer(step)
    ensures Places(Apply(s, step), id) == Places(s, id)
  {
    hide Occurs, HeldByAll;
    match step
    case Finish(ok) => OccursAtEnd(if ok then s.stored else s.failed, s.writer.id, id);
    case Take => OccursInFront(s.queue, id);
    case _ =>
  }

  // A step creates the event it numbers and otherwise leaves every event in as many places as before.
  lemma StepMoves(s: State, step: Step, id: nat)
    requires Enabled(s, step)
    ensures Places(Apply(s, step), id) == Places(s, id) + if step.Number? && id == s.emitted + 1 then 1 else 0
  {
    if ByProducer(step) {
      ProducerMoves(s, step, id);
      ProducerTouches(s, step);
      hide Apply, Occurs, Held, HeldByAll;
      HeldAfterUpdate(s.producers, step.p, Apply(s, step).producers[step.p], id);
    } else {
      WriterMoves(s, step, id);
    }
  }

  lemma StepConserves(s: State, step: Step)
    requires Enabled(s, step) && Conserved(s)
    ensures Conserved(Apply(s, step))
  {
    hide Places;
    forall id: nat
      ensures Places(Apply(s, step), id) == if 1 <= id <= Apply(s, step).emitted then 1 else 0
    {
      StepMoves(s, step, id);
    }
  }

  /** At all times each emitted event is stored, failed, queued, in a task's hands or counted as dropped. */
  lemma {:induction false} EventsAreConserved(s: State, steps: seq<Step>, t: State)
    requires Conserved(s) && Runs(s, steps, t)
    ensures Conserved(t)
    decreases |steps|
  {
    if steps != [] {
      StepConserves(s, steps[0]);
      EventsAreConserved(Apply(s, steps[0]), steps[1..], t);
    }
  }

  lemma InitConserved(n: nat)
    ensures Conserved(Init(n))
  {
    forall id: nat
      ensures Places(Init(n), id) == 0
    {
      NothingHeld(n, id);
    }
  }

  // --- The order of the journal file ---

  predicate Increasing(ids: seq<nat>) {
    forall i, j :: 0 <= i < j < |ids| ==> ids[i] < ids[j]
  }

  function WriterIds(w: Writer): seq<nat> {
    if w.Waiting? then [] else [w.id]
  }

  // The event a producer may still put into the queue.
  function Unsent(p: Producer): seq<nat> {
    match p
    case Idle | Sent | Rejected(_) => []
    case Holding(id, _) => [id]
    case Evicting(id) => [id]
    case Evicted(id, _) => [id]
    case Resending(id) => [id]
  }

  // What is queued or still to be sent by the one producer there may be.
  function Ahead(s: State): seq<nat> {
    s.queue + if |s.producers| == 1 then Unsent(s.producers[0]) else []
  }

  // Everything stored or on its way to the file, in the order it gets there.
  function Line(s: State): seq<nat> {
    s.stored + WriterIds(s.writer) + Ahead(s)
  }

  predicate OrderedUpTo(ids: seq<nat>, emitted: nat) {
    Increasing(ids) && forall id :: id in ids ==> id <= emitted
  }

  // With at most one producer that order, and the order the writer takes events in, is the order of the numbers.
  ghost predicate InOrder(s: State) {
    && |s.producers| <= 1
    && OrderedUpTo(Line(s), s.emitted)
    && OrderedUpTo(s.taken + Ahead(s), s.emitted)
  }

  lemma WithoutOne(ids: seq<nat>, k: nat, thinned: seq<nat>)
    requires Increasing(ids) && k < |ids| && thinned == ids[..k] + ids[k + 1..]
    ensures Increasing(thinned) && forall id :: id in thinned ==> id in ids
  {
    forall i, j | 0 <= i < j < |thinned|
      ensures thinned[i] < thinned[j]
    {
      assert thinned[i] == ids[if i < k then i else i + 1];
      assert thinned[j] == ids[if j < k then j else j + 1];
    }
    forall id | id in thinned
      ensures id in ids
    {
      var i :| 0 <= i < |thinned| && thinned[i] == id;
      assert thinned[i] == ids[if i < k then i else i + 1];
    }
  }

  lemma WithOneMore(ids: seq<nat>, last: nat)
    requires Increasing(ids) && forall id :: id in ids ==> id < last
    ensures Increasing(ids + [last])
  {
    assert forall i :: 0 <= i < |ids| ==> ids[i] in ids;
  }

  // Behind an unchanged head, what a single producer's step does to the queue and the event on its way there: nothing,
  // or one event is added, taken off the front or given up.
  predicate ListStep(before: seq<nat>, after: seq<nat>, emitted: nat) {
    || after == before
    || after == before + [emitted + 1]
    || (before != [] && (after == before[1..] || after == before[..|before| - 1]))
  }

  lemma GivenUp(q: seq<nat>, last: nat)
    ensures (q + [last])[..|q|] == q && q + [] == q
  {
  }

  lemma TakenOff(q: seq<nat>, rest: seq<nat>)
    requires q != []
    ensures (q + rest)[1..] == q[1..] + rest
  {
  }

  lemma SendingKeepsLine(s: State, step: Step)
    requires Enabled(s, step) && |s.producers| == 1 && (step.Send? || step.Resend?)
    ensures var t := Apply(s, step);
            |t.producers| == 1 &&
            ListStep(s.queue + Unsent(s.producers[0]), t.queue + Unsent(t.producers[0]), s.emitted)
  {
    var id := s.producers[0].id;
    assert Unsent(s.producers[0]) == [id];
    GivenUp(s.queue, id);
    GivenUp(s.queue + [id], 0);
  }

  lemma EvictingKeepsLine(s: State, p: nat)
    requires Enabled(s, Evict(p)) && |s.producers| == 1
    ensures var t := Apply(s, Evict(p));
            |t.producers| == 1 &&
            ListStep(s.queue + Unsent(s.producers[0]), t.queue + Unsent(t.producers[0]), s.emitted)
  {
    var id := s.producers[0].id;
    assert Unsent(s.producers[0]) == [id];
    if s.queue == [] {
      GivenUp(s.queue, id);
    } else {
      TakenOff(s.queue, [id]);
    }
  }

  lemma CountingKeepsLine(s: State, step: Step)
    requires Enabled(s, step) && |s.producers| == 1
    requires step.Number? || step.CountVictim? || step.CountQueued? || step.CountRejected?
    ensures var t := Apply(s, step);
            |t.producers| == 1 &&
            ListStep(s.queue + Unsent(s.producers[0]), t.queue + Unsent(t.producers[0]), s.emitted)
  {
    NothingAfter(s.queue);
  }

  lemma ProducerKeepsLine(s: State, step: Step)
    requires Enabled(s, step) && |s.producers| == 1 && ByProducer(step)
    ensures var t := Apply(s, step);
            && |t.producers| == 1 && t.stored == s.stored && t.writer == s.writer && t.taken == s.taken
            && ListStep(s.queue + Unsent(s.producers[0]), t.queue + Unsent(t.producers[0]), s.emitted)
  {
    ProducerTouches(s, step);
    hide Apply, ListStep, Unsent;
    if step.Send? || step.Resend? {
      SendingKeepsLine(s, step);
    } else if step.Evict? {
      EvictingKeepsLine(s, step.p);
    } else {
      CountingKeepsLine(s, step);
    }
  }

  lemma ProducerKeepsOrder(s: State, step: Step)
    requires Enabled(s, step) && InOrder(s) && ByProducer(step)
    ensures InOrder(Apply(s, step))
  {
    ProducerKeepsLine(s, step);
    var before, after := s.queue + Unsent(s.producers[0]), Apply(s, step).queue + Unsent(Apply(s, step).producers[0]);
    ListChange(s.stored + WriterIds(s.writer), before, after, s.emitted);
    ListChange(s.taken, before, after, s.emitted);
    EmittedGrows(s, step, before, after);
    hide Apply, Increasing, Unsent, ListStep;
  }

  lemma EmittedGrows(s: State, step: Step, before: seq<nat>, after: seq<nat>)
    requires Enabled(s, step) && ByProducer(step) && |s.producers| == 1
    requires before == s.queue + Unsent(s.producers[0])
    requires after == Apply(s, step).queue + Unsent(Apply(s, step).producers[0])
    ensures Apply(s, step).emitted >= s.emitted
    ensures after == before + [s.emitted + 1] ==> Apply(s, step).emitted == s.emitted + 1
  {
    ProducerSizes(s, step);
  }

  // Only numbering an event makes the line longer.
  lemma ProducerSizes(s: State, step: Step)
    requires Enabled(s, step) && ByProducer(step) && |s.producers| == 1
    ensures var t := Apply(s, step);
            !step.Number? ==>
              |t.queue| + |Unsent(t.producers[0])| <= |s.queue| + |Unsent(s.producers[0])|
  {
  }

  lemma TakeKeepsLines(s: State)
    requires Enabled(s, Take)
    ensures var t := Apply(s, Take); Line(t) == Line(s) && t.taken + Ahead(t) == s.taken + Ahead(s)
  {
    var unsent := if |s.producers| == 1 then Unsent(s.producers[0]) else [];
    assert s.queue == [s.queue[0]] + s.queue[1..];
    assert Ahead(s) == [s.queue[0]] + Ahead(Apply(s, Take));
  }

  lemma FinishKeepsLines(s: State, ok: bool)
    requires Enabled(s, Finish(ok))
    ensures var t := Apply(s, Finish(ok));
            && t.taken + Ahead(t) == s.taken + Ahead(s)
            && if ok then Line(t) == Line(s)
               else |s.stored| < |Line(s)| && Line(t) == Line(s)[..|s.stored|] + Line(s)[|s.stored| + 1..]
  {
  }

  lemma WriterKeepsLine(s: State, step: Step)
    requires Enabled(s, step) && InOrder(s) && !ByProducer(step)
    ensures InOrder(Apply(s, step))
  {
    hide Line, Ahead, Increasing;
    match step
    case Take => TakeKeepsLines(s);
    case Finish(ok) =>
      FinishKeepsLines(s, ok);
      if !ok {
        WithoutOne(Line(s), |s.stored|, Line(Apply(s, step)));
      }
    case _ => NothingMoves(s, step);
  }

  lemma NothingMoves(s: State, step: Step)
    requires Enabled(s, step) && (step.MutexBusy? || step.Suppress?)
    ensures var t := Apply(s, step);
            Line(t) == Line(s) && t.taken + Ahead(t) == s.taken + Ahead(s) && t.producers == s.producers
  {
  }

  lemma StepKeepsOrder(s: State, step: Step)
    requires Enabled(s, step) && InOrder(s)
    ensures InOrder(Apply(s, step))
  {
    hide InOrder, Apply;
    if ByProducer(step) {
      ProducerKeepsOrder(s, step);
    } else {
      WriterKeepsLine(s, step);
    }
  }

  // A list that changes in one of these ways behind an unchanged head stays in order.
  lemma ListChange(head: seq<nat>, before: seq<nat>, after: seq<nat>, emitted: nat)
    requires Increasing(head + before) && forall id :: id in head + before ==> id <= emitted
    requires ListStep(before, after, emitted)
    ensures Increasing(head + after)
    ensures forall id :: id in head + after ==> id <= emitted || (id == emitted + 1 && after == before + [emitted + 1])
  {
    var line := head + before;
    if after == before + [emitted + 1] {
      WithOneMore(line, emitted + 1);
      assert head + after == line + [emitted + 1];
    } else if after != before && after == before[1..] {
      WithoutOne(line, |head|, head + after);
    } else if after != before {
      WithoutOne(line, |line| - 1, head + after);
    }
  }

  lemma {:induction false} RunKeepsOrder(s: State, steps: seq<Step>, t: State)
    requires InOrder(s) && Runs(s, steps, t)
    ensures InOrder(t)
    decreases |steps|
  {
    if steps != [] {
      StepKeepsOrder(s, steps[0]);
      RunKeepsOrder(Apply(s, steps[0]), steps[1..], t);
    }
  }

  lemma RunsCons(s: State, step: Step, steps: seq<Step>, t: State)
    requires Enabled(s, step) && Runs(Apply(s, step), steps, t)
    ensures Runs(s, [step] + steps, t)
  {
    assert ([step] + steps)[1..] == steps;
  }

  // Two producers: the second overtakes the first between the first one's numbering and its send.
  lemma Overtaking(n: nat) returns (steps: seq<Step>, t: State)
    requires n >= 2
    ensures Runs(Init(n), steps, t) && t.stored == [2, 1]
  {
    hide Runs;
    var s0 := Init(n);
    var s1 := Apply(s0, Number(0, false));
    var s2 := Apply(s1, Number(1, false));
    var s3 := Apply(s2, Send(1));
    var s4 := Apply(s3, Send(0));
    assert s4.queue == [2, 1] && s4.writer == Waiting && s4.stored == [];
    var s5 := Apply(s4, Take);
    var s6 := Apply(s5, Finish(true));
    assert s6.queue == [1] && s6.stored == [2];
    var s7 := Apply(s6, Take);
    t := Apply(s7, Finish(true));
    assert t.stored == [2, 1];
    steps := [];
    RunsNothing(t);
    RunsCons(s7, Finish(true), steps, t);
    steps := [Finish(true)] + steps;
    RunsCons(s6, Take, steps, t);
    steps := [Take] + steps;
    RunsCons(s5, Finish(true), steps, t);
    steps := [Finish(true)] + steps;
    RunsCons(s4, Take, steps, t);
    steps := [Take] + steps;
    RunsCons(s3, Send(0), steps, t);
    steps := [Send(0)] + steps;
    RunsCons(s2, Send(1), steps, t);
    steps := [Send(1)] + steps;
    RunsCons(s1, Number(1, false), steps, t);
    steps := [Number(1, false)] + steps;
    RunsCons(s0, Number(0, false), steps, t);
    steps := [Number(0, false)] + steps;
  }

  lemma RunsNothing(s: State)
    ensures Runs(s, [], s)
  {
  }

  /** Numbers are assigned under the mutex but sent after it is released, so the file follows the numbers in every
      interleaving exactly when there is at most one producer. */
  lemma FileOrderNeedsOneProducer(n: nat)
    ensures (forall steps, t :: Runs(Init(n), steps, t) ==> Increasing(t.stored)) <==> n <= 1
  {
    if n <= 1 {
      forall steps, t | Runs(Init(n), steps, t)
        ensures Increasing(t.stored)
      {
        assert Line(Init(n)) == [] && Init(n).taken + Ahead(Init(n)) == [];
        RunKeepsOrder(Init(n), steps, t);
        assert forall i :: 0 <= i < |t.stored| ==> t.stored[i] == Line(t)[i];
      }
    } else {
      var steps, t := Overtaking(n);
      assert t.stored[0] == 2 && t.stored[1] == 1 && !Increasing(t.stored);
    }
  }

  lemma NothingAtFirst(n: nat)
    requires n <= 1
    ensures InOrder(Init(n))
  {
    assert Line(Init(n)) == [] && Init(n).taken + Ahead(Init(n)) == [];
  }

  lemma FrontIncreases(front: seq<nat>, rest: seq<nat>)
    requires Increasing(front + rest)
    ensures Increasing(front)
  {
    assert forall i :: 0 <= i < |front| ==> (front + rest)[i] == front[i];
  }

  /** With at most one producer the writer also takes the events in the order of their numbers. */
  lemma OneProducerIsTakenInOrder(n: nat, steps: seq<Step>, t: State)
    requires n <= 1 && Runs(Init(n), steps, t)
    ensures Increasing(t.taken)
  {
    hide Runs, Line, Ahead, Increasing, Init;
    NothingAtFirst(n);
    RunKeepsOrder(Init(n), steps, t);
    FrontIncreases(t.taken, Ahead(t));
  }

  // --- A full queue ---

  // Producers know which events are critical, and evict for no other.
  ghost predicate Marked(s: State) {
    && (forall id :: id in s.critical ==> id <= s.emitted)
    && (forall p :: 0 <= p < |s.producers| ==>
          match s.producers[p]
          case Holding(id, critical) => id <= s.emitted && (critical <==> id in s.critical)
          case Evicting(id) => id in s.critical
          case Evicted(id, _) => id in s.critical
          case Resending(id) => id in s.critical
          case _ => true)
  }

  lemma StepMarks(s: State, step: Step)
    requires Marked(s) && Enabled(s, step)
    ensures Marked(Apply(s, step))
    ensures forall id :: id <= s.emitted ==> (id in Apply(s, step).critical <==> id in s.critical)
  {
  }

  lemma {:induction false} RunMarks(s: State, steps: seq<Step>, t: State)
    requires Marked(s) && Runs(s, steps, t)
    ensures Marked(t)
    ensures s.emitted <= t.emitted && forall id :: id <= s.emitted ==> (id in t.critical <==> id in s.critical)
    decreases |steps|
  {
    hide Marked, Apply, Enabled;
    if steps != [] {
      StepMarks(s, steps[0]);
      EmittedNeverShrinks(s, steps[0]);
      RunMarks(Apply(s, steps[0]), steps[1..], t);
    }
  }

  lemma EmittedNeverShrinks(s: State, step: Step)
    requires Enabled(s, step)
    ensures s.emitted <= Apply(s, step).emitted
  {
  }

  /** What a producer does with an event it has numbered, in every interleaving: with room in the queue it goes in last;
      with 24 events queued, one that is not critical is rejected at once, and for a critical one, and no other, the
      oldest queued event is taken off. */
  lemma FullQueueDecides(n: nat, steps: seq<Step>, t: State, p: nat)
    requires Runs(Init(n), steps, t) && p < |t.producers|
    ensures t.producers[p].Holding? ==>
              var id, u := t.producers[p].id, Apply(t, Send(p));
              if |t.queue| < 24 then u.queue == t.queue + [id] && u.producers == t.producers[p := Sent]
              else
                && u.queue == t.queue
                && u.producers == t.producers[p := if id in t.critical then Evicting(id) else Rejected(id)]
    ensures t.producers[p].Evicting? || t.producers[p].Evicted? || t.producers[p].Resending? ==>
              t.producers[p].id in t.critical
  {
    hide Runs;
    RunMarks(Init(n), steps, t);
  }

  // How an event can fail to get into the queue: refused because it is full, nothing to evict, refused once more.
  datatype Refusal = Full | NothingThere | FullAgain

  predicate Refuses(s: State, step: Step, id: nat, why: Refusal) {
    match why
    case Full => step.Send? && step.p < |s.producers| && |s.queue| >= 24 && Turned(s.producers[step.p], id)
    case NothingThere => step.Evict? && step.p < |s.producers| && s.queue == [] && Turned(s.producers[step.p], id)
    case FullAgain => step.Resend? && step.p < |s.producers| && |s.queue| >= 24 && Turned(s.producers[step.p], id)
  }

  predicate Turned(p: Producer, id: nat) {
    match p
    case Holding(own, _) => own == id
    case Evicting(own) => own == id
    case Resending(own) => own == id
    case _ => false
  }

  predicate WasRefused(s: State, steps: seq<Step>, id: nat, why: Refusal)
    decreases |steps|
  {
    steps != [] && Enabled(s, steps[0])
    && (Refuses(s, steps[0], id, why) || WasRefused(Apply(s, steps[0]), steps[1..], id, why))
  }

  predicate RejectsAt(ps: seq<Producer>, p: nat, id: nat) {
    p < |ps| && ps[p] == Rejected(id)
  }

  // The event is counted as rejected, or about to be.
  ghost predicate Dropped(s: State, id: nat) {
    id in s.rejected || exists p :: RejectsAt(s.producers, p, id)
  }

  predicate LosesOut(critical: bool, full: bool, nothing: bool, again: bool) {
    if critical then nothing || again else full
  }

  lemma DroppedAfterUpdate(s: State, t: State, p: nat, id: nat)
    requires p < |s.producers| && |t.producers| == |s.producers|
    requires t.producers == s.producers[p := t.producers[p]]
    requires id in t.rejected
             <==> id in s.rejected || (s.producers[p] == Rejected(id) && t.producers[p] != Rejected(id))
    ensures Dropped(t, id) <==> Dropped(s, id) || t.producers[p] == Rejected(id)
  {
    if Dropped(s, id) && id !in s.rejected {
      var q :| RejectsAt(s.producers, q, id);
      assert q != p ==> RejectsAt(t.producers, q, id);
      assert q == p && t.producers[p] == Rejected(id) ==> RejectsAt(t.producers, p, id);
    }
    assert t.producers[p] == Rejected(id) ==> RejectsAt(t.producers, p, id);
    assert s.producers[p] == Rejected(id) ==> RejectsAt(s.producers, p, id);
    if Dropped(t, id) && id !in t.rejected {
      var q :| RejectsAt(t.producers, q, id);
      assert q != p ==> RejectsAt(s.producers, q, id);
    }
  }

  lemma StepDrops(s: State, step: Step, id: nat)
    requires Marked(s) && Enabled(s, step)
    ensures Dropped(Apply(s, step), id)
            <==> Dropped(s, id)
                 || LosesOut(id in s.critical, Refuses(s, step, id, Full), Refuses(s, step, id, NothingThere),
                             Refuses(s, step, id, FullAgain))
  {
    var t := Apply(s, step);
    if ByProducer(step) {
      ProducerTouches(s, step);
      DroppedAfterUpdate(s, t, step.p, id);
    } else {
      assert t.producers == s.producers && t.rejected == s.rejected;
    }
  }

  lemma {:induction false} RunDrops(s: State, steps: seq<Step>, t: State, id: nat)
    requires Marked(s) && Runs(s, steps, t)
    ensures Dropped(t, id)
            <==> Dropped(s, id)
                 || LosesOut(id in t.critical, WasRefused(s, steps, id, Full), WasRefused(s, steps, id, NothingThere),
                             WasRefused(s, steps, id, FullAgain))
    decreases |steps|
  {
    hide Marked, Apply, Enabled, Dropped;
    if steps != [] {
      var next := Apply(s, steps[0]);
      StepMarks(s, steps[0]);
      StepDrops(s, steps[0], id);
      RunDrops(next, steps[1..], t, id);
      RunMarks(s, steps, t);
      if id > s.emitted {
        NumberedOnly(s, steps[0], id);
      }
    }
  }

  lemma NumberedOnly(s: State, step: Step, id: nat)
    requires Marked(s) && Enabled(s, step) && id > s.emitted
    ensures !Refuses(s, step, id, Full) && !Refuses(s, step, id, NothingThere) && !Refuses(s, step, id, FullAgain)
  {
  }

  /** Over every run, an event that is not critical is rejected exactly when it met a full queue, and a critical one
      exactly when there was nothing left to evict for it, or the freed place was taken before it was sent again. */
  lemma RejectedIff(n: nat, steps: seq<Step>, t: State, id: nat)
    requires Runs(Init(n), steps, t)
    ensures Dropped(t, id)
            <==> if id in t.critical then
                   WasRefused(Init(n), steps, id, NothingThere) || WasRefused(Init(n), steps, id, FullAgain)
                 else WasRefused(Init(n), steps, id, Full)
  {
    hide Runs, WasRefused;
    RunDrops(Init(n), steps, t, id);
  }

  // The queue holds what has entered and not left.
  predicate FirstInFirstOut(s: State) {
    s.entered == s.left + s.queue
  }

  lemma StepKeepsFifo(s: State, step: Step)
    requires FirstInFirstOut(s) && Enabled(s, step)
    ensures FirstInFirstOut(Apply(s, step))
  {
    if step.Send? || step.Resend? {
      Regroup(s.left, s.queue, [s.producers[step.p].id]);
    } else if (step.Take? || step.Evict?) && s.queue != [] {
      assert s.queue == [s.queue[0]] + s.queue[1..];
      Regroup(s.left, [s.queue[0]], s.queue[1..]);
    }
  }

  /** Events leave the queue in the order they entered it, to the writer or to an eviction, which so takes the oldest.
      */
  lemma {:induction false} QueueIsFifo(s: State, steps: seq<Step>, t: State)
    requires FirstInFirstOut(s) && Runs(s, steps, t)
    ensures FirstInFirstOut(t)
    decreases |steps|
  {
    hide FirstInFirstOut, Apply, Enabled;
    if steps != [] {
      StepKeepsFifo(s, steps[0]);
      QueueIsFifo(Apply(s, steps[0]), steps[1..], t);
    }
  }

  // --- The other counters ---

  function SentCount(ps: seq<Producer>): nat {
    if ps == [] then 0 else SentCount(ps[..|ps| - 1]) + if ps[|ps| - 1].Sent? then 1 else 0
  }

  lemma {:induction false} SentAfterUpdate(ps: seq<Producer>, p: nat, next: Producer)
    requires p < |ps|
    ensures SentCount(ps[p := next]) + (if ps[p].Sent? then 1 else 0)
            == SentCount(ps) + (if next.Sent? then 1 else 0)
  {
    var m := |ps| - 1;
    if p < m {
      SentAfterUpdate(ps[..m], p, next);
      assert ps[p := next][..m] == ps[..m][p := next];
    } else {
      assert ps[p := next][..m] == ps[..m];
    }
  }

  lemma {:induction false} NothingSent(n: nat)
    ensures SentCount(seq(n, _ => Idle)) == 0
  {
    if n > 0 {
      NothingSent(n - 1);
      assert seq(n, _ => Idle)[..n - 1] == seq(n - 1, _ => Idle);
    }
  }

  // A call of the journal: turned away by the mutex, suppressed or numbered.
  function Calls(steps: seq<Step>): nat {
    if steps == [] then 0
    else Calls(steps[1..]) + if steps[0].MutexBusy? || steps[0].Suppress? || steps[0].Number? then 1 else 0
  }

  lemma StepCounts(s: State, step: Step)
    requires Enabled(s, step)
    ensures var t := Apply(s, step);
            && t.emitted + t.rateLimited + t.busyLosses == s.emitted + s.rateLimited + s.busyLosses + Calls([step])
            && t.queued + SentCount(t.producers) - |t.entered| == s.queued + SentCount(s.producers) - |s.entered|
  {
    assert Calls([step][1..]) == 0;
    if ByProducer(step) {
      ProducerTouches(s, step);
      SentAfterUpdate(s.producers, step.p, Apply(s, step).producers[step.p]);
    }
    hide SentCount, Calls;
  }

  lemma {:induction false} RunCounts(s: State, steps: seq<Step>, t: State)
    requires Runs(s, steps, t)
    ensures t.emitted + t.rateLimited + t.busyLosses == s.emitted + s.rateLimited + s.busyLosses + Calls(steps)
    ensures t.queued + SentCount(t.producers) - |t.entered| == s.queued + SentCount(s.producers) - |s.entered|
    decreases |steps|
  {
    hide Apply, Enabled, SentCount;
    if steps != [] {
      assert Calls([steps[0]][1..]) == 0;
      StepCounts(s, steps[0]);
      RunCounts(Apply(s, steps[0]), steps[1..], t);
    }
  }

  /** Every call is counted once, as emitted, rate limited or lost to a busy mutex, and `queued` counts what has entered
      the queue, but for the sends not yet counted. */
  lemma CallsAreCounted(n: nat, steps: seq<Step>, t: State)
    requires Runs(Init(n), steps, t)
    ensures t.emitted + t.rateLimited + t.busyLosses == Calls(steps)
    ensures t.queued + SentCount(t.producers) == |t.entered|
  {
    NothingSent(n);
    hide Runs, Calls, SentCount;
    RunCounts(Init(n), steps, t);
  }
}
