/** Publishing with acknowledgement: tasks that publish at QoS 1 under a mutex and wait for one event bit, against an
    event handler that sets the bit when the acknowledged message id is the pending one. Every interleaving of their
    steps is a run. */
module MqttAck {
  import opened Options

  // Messages are numbered as they are made, so each publish is its own message; ids are what MQTT calls them.
  type Message = nat
  type Id = nat

  // Where a publisher is. From Took to Disarmed it holds the publish mutex.
  datatype Phase =
    | Out
    | Took(m: Message)
    | Cleared(m: Message)
    | Sent(m: Message, id: Id)
    | Waiting(m: Message, id: Id)
    | Woken(m: Message, ok: bool)
    | Disarmed(m: Message, ok: bool)

  // The handler between its comparison, which came out equal for `id`, and its setting of the bit.
  datatype Handler = Ready | Matched(id: Id)

  datatype Result = Result(m: Message, ok: bool)

  // The messages under way, those the broker has, those whose acknowledgement was handled; of these last, the ones
  // handled before their publisher had armed its wait, and the ones handled during that wait.
  datatype State = State(phases: seq<Phase>, holder: Option<nat>, bit: bool, pending: Option<Id>, handler: Handler,
                         outstanding: map<Id, Message>, received: set<Message>, acknowledged: set<Message>,
                         early: set<Message>, inWait: set<Message>, made: nat, results: seq<Result>)

  datatype Step =
    | Take(p: nat) | Clear(p: nat) | Send(p: nat, id: Id) | Refuse(p: nat) | Arm(p: nat)
    | Wake(p: nat) | TimeOut(p: nat) | Disarm(p: nat) | Release(p: nat)
    | Enqueue(id: Id)
    | Receive(id: Id)
    | HandleCompare(id: Id) | HandleSet

  function Start(publishers: nat): State {
    State(seq(publishers, _ => Out), None, false, None, Ready, map[], {}, {}, {}, {}, 0, [])
  }

  predicate Holds(s: State, p: nat) {
    p < |s.phases| && s.holder == Some(p)
  }

  // What the mutex holder is doing.
  function Turn(s: State): Phase {
    if s.holder.Some? && s.holder.value < |s.phases| then s.phases[s.holder.value] else Out
  }

  predicate Enabled(s: State, step: Step) {
    match step
    case Take(p) => p < |s.phases| && s.holder == None && s.phases[p].Out?
    case Clear(p) => Holds(s, p) && s.phases[p].Took?
    case Send(p, id) => Holds(s, p) && s.phases[p].Cleared? && id !in s.outstanding
    case Refuse(p) => Holds(s, p) && s.phases[p].Cleared?
    case Arm(p) => Holds(s, p) && s.phases[p].Sent?
    case Wake(p) => Holds(s, p) && s.phases[p].Waiting? && s.bit
    case TimeOut(p) => Holds(s, p) && s.phases[p].Waiting? && !s.bit
    case Disarm(p) => Holds(s, p) && s.phases[p].Woken?
    case Release(p) => Holds(s, p) && s.phases[p].Disarmed?
    case Enqueue(id) => id !in s.outstanding
    case Receive(id) => id in s.outstanding
    case HandleCompare(id) => s.handler.Ready? && id in s.outstanding && s.outstanding[id] in s.received
    case HandleSet => s.handler.Matched?
  }

  function Move(s: State, p: nat, phase: Phase): State
    requires p < |s.phases|
  {
    s.(phases := s.phases[p := phase])
  }

  // The acknowledgement of message `id` arrives: the id is free again, and is compared with the pending one.
  function Acknowledge(s: State, id: Id): State
    requires id in s.outstanding
  {
    var m, turn := s.outstanding[id], Turn(s);
    s.(outstanding := s.outstanding - {id}, acknowledged := s.acknowledged + {m},
       early := if turn.Sent? && turn.m == m then s.early + {m} else s.early,
       inWait := if turn.Waiting? && turn.m == m then s.inWait + {m} else s.inWait,
       handler := if s.pending == Some(id) then Matched(id) else Ready)
  }

  function After(s: State, step: Step): State
    requires Enabled(s, step)
  {
    match step
    case Take(p) => Move(s, p, Took(s.made)).(holder := Some(p), made := s.made + 1)
    case Clear(p) => Move(s, p, Cleared(s.phases[p].m)).(bit := false)
    case Send(p, id) => Move(s, p, Sent(s.phases[p].m, id)).(outstanding := s.outstanding[id := s.phases[p].m])
    case Refuse(p) => Move(s, p, Disarmed(s.phases[p].m, false)).(pending := None)
    case Arm(p) => Move(s, p, Waiting(s.phases[p].m, s.phases[p].id)).(pending := Some(s.phases[p].id))
    case Wake(p) => Move(s, p, Woken(s.phases[p].m, true)).(bit := false)
    case TimeOut(p) => Move(s, p, Woken(s.phases[p].m, false))
    case Disarm(p) => Move(s, p, Disarmed(s.phases[p].m, s.phases[p].ok)).(pending := None)
    case Release(p) =>
      Move(s, p, Out).(holder := None, results := s.results + [Result(s.phases[p].m, s.phases[p].ok)])
    case Enqueue(id) => s.(outstanding := s.outstanding[id := s.made], made := s.made + 1)
    case Receive(id) => s.(received := s.received + {s.outstanding[id]})
    case HandleCompare(id) => Acknowledge(s, id)
    case HandleSet => s.(bit := true, handler := Ready)
  }

  predicate Run(s: State, steps: seq<Step>)
    decreases |steps|
  {
    steps == [] || (Enabled(s, steps[0]) && Run(After(s, steps[0]), steps[1..]))
  }

  function Final(s: State, steps: seq<Step>): State
    requires Run(s, steps)
    decreases |steps|
  {
    if steps == [] then s else Final(After(s, steps[0]), steps[1..])
  }

  // --- What every step keeps ---

  // Each message is under way under one id at most, and no longer once acknowledged; the one about to be sent is new.
  predicate Distinct(s: State) {
    && (forall id :: id in s.outstanding ==> s.outstanding[id] < s.made && s.outstanding[id] !in s.acknowledged)
    && (forall i, j :: i in s.outstanding && j in s.outstanding && s.outstanding[i] == s.outstanding[j] ==> i == j)
    && (forall m :: m in s.acknowledged ==> m < s.made)
    && (Turn(s).Took? || Turn(s).Cleared? ==>
          && Turn(s).m < s.made && Turn(s).m !in s.acknowledged
          && forall id :: id in s.outstanding ==> s.outstanding[id] != Turn(s).m)
    && s.early !! s.inWait && s.early + s.inWait <= s.acknowledged <= s.received
  }

  lemma AcknowledgeKeepsDistinct(s: State, id: Id)
    requires Distinct(s) && id in s.outstanding && s.outstanding[id] in s.received
    ensures Distinct(Acknowledge(s, id))
  {
    var m, t := s.outstanding[id], Acknowledge(s, id);
    assert Turn(t) == Turn(s);
    assert forall i :: i in t.outstanding ==> i in s.outstanding && i != id && t.outstanding[i] == s.outstanding[i];
    assert forall i :: i in t.outstanding ==> t.outstanding[i] != m;
    assert m !in s.early && m !in s.inWait;
  }

  // The steps that put a message under way or number a new one.
  predicate Makes(step: Step) {
    step.Take? || step.Send? || step.Enqueue?
  }

  lemma MakingKeepsDistinct(s: State, step: Step)
    requires Distinct(s) && Enabled(s, step) && Makes(step)
    ensures Distinct(After(s, step))
  {
    hide Acknowledge;
    match step {
      case Take(_) => assert Turn(After(s, step)) == Took(s.made);
      case Send(_, _) => assert Turn(After(s, step)).Sent?;
      case Enqueue(_) => assert Turn(After(s, step)) == Turn(s);
    }
  }

  lemma OthersKeepDistinct(s: State, step: Step)
    requires Distinct(s) && Enabled(s, step) && !Makes(step) && !step.HandleCompare?
    ensures Distinct(After(s, step))
  {
  }

  lemma StepKeepsDistinct(s: State, step: Step)
    requires Distinct(s) && Enabled(s, step)
    ensures Distinct(After(s, step))
  {
    hide Distinct, Acknowledge, Turn;
    if step.HandleCompare? {
      AcknowledgeKeepsDistinct(s, step.id);
    } else if Makes(step) {
      MakingKeepsDistinct(s, step);
    } else {
      OthersKeepDistinct(s, step);
    }
  }

  // Acknowledged since it was sent: before its publisher armed its wait, or during that wait.
  predicate Answered(s: State, m: Message) {
    m in s.acknowledged && (m in s.early || m in s.inWait)
  }

  // A set bit can only be taken for the acknowledgement of a message that has one.
  predicate HolderOk(s: State, phase: Phase) {
    match phase
    case Out => false
    case Took(_) => s.pending == None
    case Cleared(_) => s.pending == None && !s.bit
    case Sent(m, id) =>
      && s.pending == None && (s.bit ==> m in s.acknowledged)
      && (m in s.acknowledged ==> m in s.early)
      && (m in s.acknowledged || (id in s.outstanding && s.outstanding[id] == m))
    case Waiting(m, id) =>
      && s.pending == Some(id) && (s.bit ==> m in s.acknowledged)
      && (m in s.acknowledged ==> Answered(s, m))
      && (m in s.acknowledged || (id in s.outstanding && s.outstanding[id] == m))
    case Woken(m, ok) => ok ==> Answered(s, m)
    case Disarmed(m, ok) => s.pending == None && (ok ==> Answered(s, m))
  }

  predicate Sound(s: State) {
    && (forall q :: 0 <= q < |s.phases| && s.holder != Some(q) ==> s.phases[q].Out?)
    && (match s.holder
        case None => s.pending == None
        case Some(p) => p < |s.phases| && HolderOk(s, s.phases[p]))
    && (forall r :: r in s.results && r.ok ==> Answered(s, r.m))
  }

  // The bit may not be set now: the holder has cleared it for a message that is not acknowledged.
  predicate Stale(s: State) {
    Turn(s).Cleared? || ((Turn(s).Sent? || Turn(s).Waiting?) && Turn(s).m !in s.acknowledged)
  }

  predicate SetsStaleBit(s: State, step: Step) {
    step.HandleSet? && Stale(s)
  }

  lemma AcknowledgeIsSound(s: State, id: Id)
    requires Distinct(s) && Sound(s) && Enabled(s, HandleCompare(id))
    ensures Sound(Acknowledge(s, id))
  {
    var t := Acknowledge(s, id);
    assert t.phases == s.phases && t.holder == s.holder && t.results == s.results;
  }

  lemma OthersAreSoundIff(s: State, step: Step)
    requires Sound(s) && Enabled(s, step) && !step.HandleCompare?
    requires Turn(s).Took? || Turn(s).Cleared? ==> Turn(s).m !in s.acknowledged
    ensures Sound(After(s, step)) <==> !SetsStaleBit(s, step)
  {
  }

  /** The one step that breaks it: setting the bit for a publisher that has cleared it since the comparison. */
  lemma StepIsSoundIff(s: State, step: Step)
    requires Distinct(s) && Sound(s) && Enabled(s, step)
    ensures Sound(After(s, step)) <==> !SetsStaleBit(s, step)
  {
    if step.HandleCompare? {
      AcknowledgeIsSound(s, step.id);
    } else {
      OthersAreSoundIff(s, step);
    }
    hide Sound, Distinct, Stale;
  }

  predicate NoStaleBit(s: State, steps: seq<Step>)
    requires Run(s, steps)
    decreases |steps|
  {
    steps == [] || (!SetsStaleBit(s, steps[0]) && NoStaleBit(After(s, steps[0]), steps[1..]))
  }

  lemma {:induction false} RunKeeps(s: State, steps: seq<Step>)
    requires Distinct(s) && Sound(s) && Run(s, steps) && NoStaleBit(s, steps)
    ensures Distinct(Final(s, steps)) && Sound(Final(s, steps))
    decreases |steps|
  {
    hide Sound, Distinct, After, Enabled, SetsStaleBit;
    if steps != [] {
      StepKeepsDistinct(s, steps[0]);
      StepIsSoundIff(s, steps[0]);
      RunKeeps(After(s, steps[0]), steps[1..]);
    }
  }

  /** In every interleaving that sets no stale bit, a publish that returns success published a message the broker has,
      whose own acknowledgement was handled between its sending and that return: during the wait, unless it had come
      in before the wait was armed. */
  lemma SuccessMeansDelivered(publishers: nat, steps: seq<Step>)
    requires Run(Start(publishers), steps) && NoStaleBit(Start(publishers), steps)
    ensures var s := Final(Start(publishers), steps);
            forall r :: r in s.results && r.ok ==>
              r.m in s.acknowledged && r.m in s.received && (r.m in s.inWait <==> r.m !in s.early)
  {
    hide Run, NoStaleBit, Final;
    RunKeeps(Start(publishers), steps);
  }

  // --- Success within one's own wait ---

  // The id of a publish whose acknowledgement came before its wait is taken over by another message.
  predicate ReusesId(s: State, step: Step) {
    step.Enqueue? && (Turn(s).Sent? || Turn(s).Waiting?) && Turn(s).id == step.id && Turn(s).m in s.early
  }

  // Nothing is under way that could end the wait of a publish answered before it; success came from the wait itself.
  predicate Prompt(s: State) {
    && (match Turn(s)
        case Sent(m, id) => m in s.early ==> !s.bit && s.handler.Ready? && id !in s.outstanding
        case Waiting(m, id) => m in s.early ==> !s.bit && s.handler.Ready? && id !in s.outstanding
        case Woken(m, ok) => ok ==> m in s.inWait
        case Disarmed(m, ok) => ok ==> m in s.inWait
        case _ => true)
    && (forall r :: r in s.results && r.ok ==> r.m in s.inWait)
  }

  /** Of all other steps, just such a reuse puts something under way that could. */
  lemma StepIsPromptIff(s: State, step: Step)
    requires Distinct(s) && Sound(s) && Prompt(s) && Enabled(s, step) && !SetsStaleBit(s, step)
    ensures Prompt(After(s, step)) <==> !ReusesId(s, step)
  {
  }

  predicate NoReuse(s: State, steps: seq<Step>)
    requires Run(s, steps)
    decreases |steps|
  {
    steps == [] || (!ReusesId(s, steps[0]) && NoReuse(After(s, steps[0]), steps[1..]))
  }

  lemma {:induction false} RunIsPrompt(s: State, steps: seq<Step>)
    requires Distinct(s) && Sound(s) && Prompt(s) && Run(s, steps) && NoStaleBit(s, steps) && NoReuse(s, steps)
    ensures Prompt(Final(s, steps))
    decreases |steps|
  {
    hide Sound, Distinct, Prompt, After, Enabled, SetsStaleBit, ReusesId;
    if steps != [] {
      StepKeepsDistinct(s, steps[0]);
      StepIsSoundIff(s, steps[0]);
      StepIsPromptIff(s, steps[0]);
      RunIsPrompt(After(s, steps[0]), steps[1..]);
    }
  }

  /** In every interleaving that sets no stale bit and reuses no id of a publish answered before its wait, success means
      that the message's own acknowledgement was handled during its publisher's wait. */
  lemma SuccessIsFromTheWait(publishers: nat, steps: seq<Step>)
    requires Run(Start(publishers), steps) && NoStaleBit(Start(publishers), steps) && NoReuse(Start(publishers), steps)
    ensures var s := Final(Start(publishers), steps); forall r :: r in s.results && r.ok ==> r.m in s.inWait
  {
    hide Run, NoStaleBit, NoReuse, Final;
    RunIsPrompt(Start(publishers), steps);
  }

  // The publish of m has seen its event bit, and nothing but success can come of it.
  predicate BoundToSucceed(s: State, p: nat, m: Message) {
    || Result(m, true) in s.results
    || (&& Holds(s, p)
        && match s.phases[p]
           case Waiting(own, _) => own == m && s.bit
           case Woken(own, ok) => own == m && ok
           case Disarmed(own, ok) => own == m && ok
           case _ => false)
  }

  lemma StepStaysBound(s: State, step: Step, p: nat, m: Message)
    requires Sound(s) && Enabled(s, step) && BoundToSucceed(s, p, m)
    ensures BoundToSucceed(After(s, step), p, m)
  {
    assert forall r :: r in s.results ==> r in After(s, step).results;
  }

  /** A wait whose bit is set does not time out any more: whatever the other tasks do, it goes on to success, or is
      about to. */
  lemma {:induction false} SetBitSucceeds(s: State, steps: seq<Step>, p: nat, m: Message)
    requires Distinct(s) && Sound(s) && Run(s, steps) && NoStaleBit(s, steps) && BoundToSucceed(s, p, m)
    ensures BoundToSucceed(Final(s, steps), p, m)
    decreases |steps|
  {
    hide Sound, Distinct, After, Enabled, SetsStaleBit, BoundToSucceed;
    if steps != [] {
      StepKeepsDistinct(s, steps[0]);
      StepIsSoundIff(s, steps[0]);
      StepStaysBound(s, steps[0], p, m);
      SetBitSucceeds(After(s, steps[0]), steps[1..], p, m);
    }
  }

  // --- A stale bit misleads ---

  lemma FreshId(ids: set<Id>) returns (id: Id)
    ensures forall i :: i in ids ==> i < id
    decreases |ids|
  {
    if ids == {} {
      return 0;
    }
    var i :| i in ids;
    var rest := FreshId(ids - {i});
    id := if rest > i then rest else i + 1;
    forall j | j in ids ensures j < id {
      assert j == i || j in ids - {i};
    }
  }

  lemma {:induction false} RunSnoc(s: State, steps: seq<Step>, step: Step)
    requires Run(s, steps) && Enabled(Final(s, steps), step)
    ensures Run(s, steps + [step]) && Final(s, steps + [step]) == After(Final(s, steps), step)
    ensures NoStaleBit(s, steps) && !SetsStaleBit(Final(s, steps), step) ==> NoStaleBit(s, steps + [step])
    decreases |steps|
  {
    hide After, Enabled, SetsStaleBit;
    if steps == [] {
      assert ([] + [step])[1..] == [];
    } else {
      assert (steps + [step])[1..] == steps[1..] + [step];
      RunSnoc(After(s, steps[0]), steps[1..], step);
    }
  }

  // From a wait with the bit set, success follows whatever the bit stood for.
  lemma WaitSucceeds(s: State, steps: seq<Step>, t: State, p: nat) returns (more: seq<Step>)
    requires Run(s, steps) && Final(s, steps) == t
    requires Holds(t, p) && t.phases[p].Waiting? && t.bit
    ensures Run(s, more) && (NoStaleBit(s, steps) ==> NoStaleBit(s, more))
    ensures var u := Final(s, more);
            && Result(t.phases[p].m, true) in u.results
            && u.acknowledged == t.acknowledged && u.early == t.early && u.inWait == t.inWait
  {
    hide Run, Final, NoStaleBit;
    var m := t.phases[p].m;
    RunSnoc(s, steps, Wake(p));
    more := steps + [Wake(p)];
    RunSnoc(s, more, Disarm(p));
    more := more + [Disarm(p)];
    RunSnoc(s, more, Release(p));
    more := more + [Release(p)];
    var results := Final(s, more).results;
    assert results[|results| - 1] == Result(m, true);
  }

  /** Every step that sets a stale bit has a continuation in which the publish succeeds although its message is not
      acknowledged. */
  lemma StaleBitMisleads(s: State) returns (steps: seq<Step>, m: Message)
    requires Distinct(s) && Sound(s) && Enabled(s, HandleSet) && Stale(s)
    ensures Run(s, steps) && Result(m, true) in Final(s, steps).results && m !in Final(s, steps).acknowledged
  {
    var p := s.holder.value;
    m := Turn(s).m;
    var none: seq<Step> := [];
    assert Run(s, none) && Final(s, none) == s;
    hide Run, Final, Sound, Distinct;
    RunSnoc(s, none, HandleSet);
    steps := none + [HandleSet];
    var t := After(s, HandleSet);
    if Turn(s).Cleared? {
      var id := FreshId(t.outstanding.Keys);
      RunSnoc(s, steps, Send(p, id));
      steps := steps + [Send(p, id)];
      t := After(t, Send(p, id));
    }
    if t.phases[p].Sent? {
      RunSnoc(s, steps, Arm(p));
      steps := steps + [Arm(p)];
      t := After(t, Arm(p));
    }
    assert m !in s.acknowledged by { NotYetAcknowledged(s); }
    steps := WaitSucceeds(s, steps, t, p);
  }

  lemma NotYetAcknowledged(s: State)
    requires Distinct(s) && Stale(s)
    ensures Turn(s).m !in s.acknowledged
  {
  }

  // A publish answered before its wait waits, under an id that now stands for another message.
  predicate WaitsForAnother(s: State, p: nat, m: Message, id: Id) {
    && Holds(s, p) && s.phases[p] == Waiting(m, id) && s.pending == Some(id) && s.handler.Ready?
    && id in s.outstanding && s.outstanding[id] != m
    && m in s.early && m in s.acknowledged && m !in s.inWait
  }

  lemma ReuseLeads(s: State, id: Id) returns (steps: seq<Step>, t: State)
    requires Distinct(s) && Sound(s) && Prompt(s) && Enabled(s, Enqueue(id)) && ReusesId(s, Enqueue(id))
    ensures Run(s, steps) && NoStaleBit(s, steps) && Final(s, steps) == t
    ensures WaitsForAnother(t, s.holder.value, Turn(s).m, id)
  {
    var p := s.holder.value;
    var none: seq<Step> := [];
    assert Run(s, none) && Final(s, none) == s && NoStaleBit(s, none);
    hide Run, Final, NoStaleBit;
    RunSnoc(s, none, Enqueue(id));
    steps, t := none + [Enqueue(id)], After(s, Enqueue(id));
    if t.phases[p].Sent? {
      RunSnoc(s, steps, Arm(p));
      steps, t := steps + [Arm(p)], After(t, Arm(p));
    }
  }

  // The other message's acknowledgement sets the bit.
  lemma OtherSetsBit(s: State, before: seq<Step>, t: State, p: nat, m: Message, id: Id)
      returns (steps: seq<Step>, u: State)
    requires Run(s, before) && NoStaleBit(s, before) && Final(s, before) == t && WaitsForAnother(t, p, m, id)
    ensures Run(s, steps) && NoStaleBit(s, steps) && Final(s, steps) == u
    ensures Holds(u, p) && u.phases[p] == Waiting(m, id) && u.bit && u.early == t.early && u.inWait == t.inWait
  {
    hide Run, Final, NoStaleBit;
    RunSnoc(s, before, Receive(id));
    steps, u := before + [Receive(id)], After(t, Receive(id));
    RunSnoc(s, steps, HandleCompare(id));
    steps, u := steps + [HandleCompare(id)], After(u, HandleCompare(id));
    RunSnoc(s, steps, HandleSet);
    steps, u := steps + [HandleSet], After(u, HandleSet);
  }

  /** And every such reuse has a continuation, without any stale bit, in which the publish succeeds although its
      acknowledgement did not come during its wait. */
  lemma ReuseEndsTheWait(s: State, id: Id) returns (steps: seq<Step>, m: Message)
    requires Distinct(s) && Sound(s) && Prompt(s) && Enabled(s, Enqueue(id)) && ReusesId(s, Enqueue(id))
    ensures Run(s, steps) && NoStaleBit(s, steps)
    ensures Result(m, true) in Final(s, steps).results && m in Final(s, steps).early && m !in Final(s, steps).inWait
  {
    var t, u;
    m := Turn(s).m;
    steps, t := ReuseLeads(s, id);
    steps, u := OtherSetsBit(s, steps, t, s.holder.value, m, id);
    steps := WaitSucceeds(s, steps, u, s.holder.value);
  }

  // --- When no bit is stale: a handler in one step ---

  // No publisher clears the bit between the handler's comparison and its setting of the bit; in particular this
  // holds when the two are one step.
  predicate Undivided(s: State, step: Step) {
    step.Clear? ==> s.handler.Ready?
  }

  predicate UndividedRun(s: State, steps: seq<Step>)
    requires Run(s, steps)
    decreases |steps|
  {
    steps == [] || (Undivided(s, steps[0]) && UndividedRun(After(s, steps[0]), steps[1..]))
  }

  lemma StepStaysFresh(s: State, step: Step)
    requires Distinct(s) && Sound(s) && Enabled(s, step) && Undivided(s, step)
    requires s.handler.Matched? ==> !Stale(s)
    ensures !SetsStaleBit(s, step)
    ensures After(s, step).handler.Matched? ==> !Stale(After(s, step))
  {
  }

  lemma {:induction false} UndividedSetsNoStaleBit(s: State, steps: seq<Step>)
    requires Distinct(s) && Sound(s) && Run(s, steps) && UndividedRun(s, steps)
    requires s.handler.Matched? ==> !Stale(s)
    ensures NoStaleBit(s, steps)
    decreases |steps|
  {
    hide Sound, Distinct, After, Enabled, Undivided, SetsStaleBit, Stale;
    if steps != [] {
      StepStaysFresh(s, steps[0]);
      StepKeepsDistinct(s, steps[0]);
      StepIsSoundIff(s, steps[0]);
      UndividedSetsNoStaleBit(After(s, steps[0]), steps[1..]);
    }
  }

  /** So with the handler's comparison and its setting of the bit as one step, success always means delivered. */
  lemma UndividedSuccessMeansDelivered(publishers: nat, steps: seq<Step>)
    requires Run(Start(publishers), steps) && UndividedRun(Start(publishers), steps)
    ensures var s := Final(Start(publishers), steps);
            forall r :: r in s.results && r.ok ==> r.m in s.acknowledged && r.m in s.received
  {
    hide Run, NoStaleBit, UndividedRun, Final;
    UndividedSetsNoStaleBit(Start(publishers), steps);
    SuccessMeansDelivered(publishers, steps);
  }

  // --- Two runs of a single publisher ---

  lemma Walk(steps: seq<Step>, step: Step, before: State, after: State) returns (more: seq<Step>)
    requires Run(Start(1), steps) && Final(Start(1), steps) == before
    requires Enabled(before, step) && After(before, step) == after
    ensures Run(Start(1), more) && Final(Start(1), more) == after
    ensures NoStaleBit(Start(1), steps) && !SetsStaleBit(before, step) ==> NoStaleBit(Start(1), more)
  {
    RunSnoc(Start(1), steps, step);
    more := steps + [step];
  }

  // Message 0 sent; waited for; given up on with the handler half done; message 1 waited for with the bit set; message
  // 0 waited for after message 1 took over its id; and the bit set for message 1.
  const ONE_SENT := State([Sent(0, 7)], Some(0), false, None, Ready, map[7 := 0], {}, {}, {}, {}, 1, [])
  const ONE_WAITS := State([Waiting(0, 7)], Some(0), false, Some(7), Ready, map[7 := 0], {}, {}, {}, {}, 1, [])
  const ONE_GAVE_UP := State([Out], None, false, None, Matched(7), map[], {0}, {0}, {}, {0}, 1, [Result(0, false)])
  const TWO_MISLED :=
    State([Waiting(1, 8)], Some(0), true, Some(8), Ready, map[8 := 1], {0}, {0}, {}, {0}, 2, [Result(0, false)])
  const ID_REUSED := State([Waiting(0, 7)], Some(0), false, Some(7), Ready, map[7 := 1], {0}, {0}, {0}, {}, 2, [])
  const TWO_ANSWERED := State([Waiting(0, 7)], Some(0), true, Some(7), Ready, map[], {0, 1}, {0, 1}, {0}, {}, 2, [])

  // Message 0 goes out.
  lemma Publishes(before: seq<Step>) returns (steps: seq<Step>)
    requires Run(Start(1), before) && Final(Start(1), before) == Start(1)
    ensures Run(Start(1), steps) && Final(Start(1), steps) == ONE_SENT
    ensures NoStaleBit(Start(1), before) ==> NoStaleBit(Start(1), steps)
  {
    hide Run, Final, NoStaleBit;
    var s0 := Start(1);
    var s1 := State([Took(0)], Some(0), false, None, Ready, map[], {}, {}, {}, {}, 1, []);
    var s2 := State([Cleared(0)], Some(0), false, None, Ready, map[], {}, {}, {}, {}, 1, []);
    var s3 := ONE_SENT;
    steps := Walk(before, Take(0), s0, s1);
    steps := Walk(steps, Clear(0), s1, s2);
    steps := Walk(steps, Send(0, 7), s2, s3);
  }

  // Its publisher waits.
  lemma WaitArmed(before: seq<Step>) returns (steps: seq<Step>)
    requires Run(Start(1), before) && Final(Start(1), before) == ONE_SENT
    ensures Run(Start(1), steps) && Final(Start(1), steps) == ONE_WAITS
  {
    hide Run, Final, NoStaleBit;
    var s3 := ONE_SENT;
    var s4 := ONE_WAITS;
    steps := Walk(before, Arm(0), s3, s4);
  }

  // The acknowledgement is compared as the publisher gives up, but the bit not yet set.
  lemma GivesUp(before: seq<Step>) returns (steps: seq<Step>)
    requires Run(Start(1), before) && Final(Start(1), before) == ONE_WAITS
    ensures Run(Start(1), steps) && Final(Start(1), steps) == ONE_GAVE_UP
  {
    hide Run, Final, NoStaleBit;
    var s4 := ONE_WAITS;
    var s5 := State([Waiting(0, 7)], Some(0), false, Some(7), Ready, map[7 := 0], {0}, {}, {}, {}, 1, []);
    var s6 := State([Waiting(0, 7)], Some(0), false, Some(7), Matched(7), map[], {0}, {0}, {}, {0}, 1, []);
    var s7 := State([Woken(0, false)], Some(0), false, Some(7), Matched(7), map[], {0}, {0}, {}, {0}, 1, []);
    var s8 := State([Disarmed(0, false)], Some(0), false, None, Matched(7), map[], {0}, {0}, {}, {0}, 1, []);
    var s9 := ONE_GAVE_UP;
    steps := Walk(before, Receive(7), s4, s5);
    steps := Walk(steps, HandleCompare(7), s5, s6);
    steps := Walk(steps, TimeOut(0), s6, s7);
    steps := Walk(steps, Disarm(0), s7, s8);
    steps := Walk(steps, Release(0), s8, s9);
  }

  // The next publisher clears the bit, and only then is it set.
  lemma TakesStaleBit(before: seq<Step>) returns (steps: seq<Step>)
    requires Run(Start(1), before) && Final(Start(1), before) == ONE_GAVE_UP
    ensures Run(Start(1), steps) && Final(Start(1), steps) == TWO_MISLED
  {
    hide Run, Final, NoStaleBit;
    var s9 := ONE_GAVE_UP;
    var s10 := State([Took(1)], Some(0), false, None, Matched(7), map[], {0}, {0}, {}, {0}, 2, [Result(0, false)]);
    var s11 := State([Cleared(1)], Some(0), false, None, Matched(7), map[], {0}, {0}, {}, {0}, 2, [Result(0, false)]);
    var s12 := State([Cleared(1)], Some(0), true, None, Ready, map[], {0}, {0}, {}, {0}, 2, [Result(0, false)]);
    var s13 := State([Sent(1, 8)], Some(0), true, None, Ready, map[8 := 1], {0}, {0}, {}, {0}, 2, [Result(0, false)]);
    var s14 := TWO_MISLED;
    steps := Walk(before, Take(0), s9, s10);
    steps := Walk(steps, Clear(0), s10, s11);
    steps := Walk(steps, HandleSet, s11, s12);
    steps := Walk(steps, Send(0, 8), s12, s13);
    steps := Walk(steps, Arm(0), s13, s14);
  }

  /** Were the comparison and the setting of the bit two steps, the next publish could clear the bit in between and
      then report success for a message the broker never saw. */
  lemma DividedHandlerFails() returns (steps: seq<Step>)
    ensures Run(Start(1), steps) && !UndividedRun(Start(1), steps) && !NoStaleBit(Start(1), steps)
    ensures var s := Final(Start(1), steps); Result(1, true) in s.results && 1 !in s.received
  {
    steps := Publishes([]);
    steps := WaitArmed(steps);
    steps := GivesUp(steps);
    steps := TakesStaleBit(steps);
    hide Run, Final;
    var s14 := TWO_MISLED;
    var s15 := State([Woken(1, true)], Some(0), false, Some(8), Ready, map[8 := 1], {0}, {0}, {}, {0}, 2,
                     [Result(0, false)]);
    var s16 := State([Disarmed(1, true)], Some(0), false, None, Ready, map[8 := 1], {0}, {0}, {}, {0}, 2,
                     [Result(0, false)]);
    var s17 := State([Out], None, false, None, Ready, map[8 := 1], {0}, {0}, {}, {0}, 2,
                     [Result(0, false), Result(1, true)]);
    steps := Walk(steps, Wake(0), s14, s15);
    steps := Walk(steps, Disarm(0), s15, s16);
    steps := Walk(steps, Release(0), s16, s17);
    assert s17.results[1] == Result(1, true);
    NotDelivered(steps);
  }

  lemma NotDelivered(steps: seq<Step>)
    requires Run(Start(1), steps)
    requires var s := Final(Start(1), steps); Result(1, true) in s.results && 1 !in s.received
    ensures !UndividedRun(Start(1), steps) && !NoStaleBit(Start(1), steps)
  {
    hide Run, Final, NoStaleBit, UndividedRun;
    if NoStaleBit(Start(1), steps) {
      SuccessMeansDelivered(1, steps);
    }
    if UndividedRun(Start(1), steps) {
      UndividedSuccessMeansDelivered(1, steps);
    }
  }

  // The acknowledgement is handled before the wait is armed, and a status message takes over the id.
  lemma AnsweredEarly(before: seq<Step>) returns (steps: seq<Step>)
    requires Run(Start(1), before) && Final(Start(1), before) == ONE_SENT
    ensures Run(Start(1), steps) && Final(Start(1), steps) == ID_REUSED
    ensures NoStaleBit(Start(1), before) ==> NoStaleBit(Start(1), steps)
  {
    hide Run, Final, NoStaleBit;
    var s3 := ONE_SENT;
    var s4 := State([Sent(0, 7)], Some(0), false, None, Ready, map[7 := 0], {0}, {}, {}, {}, 1, []);
    var s5 := State([Sent(0, 7)], Some(0), false, None, Ready, map[], {0}, {0}, {0}, {}, 1, []);
    var s6 := State([Sent(0, 7)], Some(0), false, None, Ready, map[7 := 1], {0}, {0}, {0}, {}, 2, []);
    var s7 := ID_REUSED;
    steps := Walk(before, Receive(7), s3, s4);
    steps := Walk(steps, HandleCompare(7), s4, s5);
    steps := Walk(steps, Enqueue(7), s5, s6);
    steps := Walk(steps, Arm(0), s6, s7);
  }

  // The status message's acknowledgement sets the bit.
  lemma OtherAnswers(before: seq<Step>) returns (steps: seq<Step>)
    requires Run(Start(1), before) && Final(Start(1), before) == ID_REUSED
    ensures Run(Start(1), steps) && Final(Start(1), steps) == TWO_ANSWERED
    ensures NoStaleBit(Start(1), before) ==> NoStaleBit(Start(1), steps)
  {
    hide Run, Final, NoStaleBit;
    var s7 := ID_REUSED;
    var s8 := State([Waiting(0, 7)], Some(0), false, Some(7), Ready, map[7 := 1], {0, 1}, {0}, {0}, {}, 2, []);
    var s9 := State([Waiting(0, 7)], Some(0), false, Some(7), Matched(7), map[], {0, 1}, {0, 1}, {0}, {}, 2, []);
    var s10 := TWO_ANSWERED;
    steps := Walk(before, Receive(7), s7, s8);
    steps := Walk(steps, HandleCompare(7), s8, s9);
    steps := Walk(steps, HandleSet, s9, s10);
  }

  /** An acknowledgement that comes in before the wait is armed does not end the wait. It still succeeds when another
      message has taken over the freed id and is acknowledged: rightly, but not through its own acknowledgement. */
  lemma EarlyAnswerSucceedsByReuse() returns (steps: seq<Step>)
    ensures Run(Start(1), steps) && NoStaleBit(Start(1), steps)
    ensures var s := Final(Start(1), steps); Result(0, true) in s.results && 0 in s.early && 0 !in s.inWait
  {
    steps := Publishes([]);
    steps := AnsweredEarly(steps);
    steps := OtherAnswers(steps);
    hide Run, Final, NoStaleBit;
    var s10 := TWO_ANSWERED;
    var s11 := State([Woken(0, true)], Some(0), false, Some(7), Ready, map[], {0, 1}, {0, 1}, {0}, {}, 2, []);
    var s12 := State([Disarmed(0, true)], Some(0), false, None, Ready, map[], {0, 1}, {0, 1}, {0}, {}, 2, []);
    var s13 := State([Out], None, false, None, Ready, map[], {0, 1}, {0, 1}, {0}, {}, 2, [Result(0, true)]);
    steps := Walk(steps, Wake(0), s10, s11);
    steps := Walk(steps, Disarm(0), s11, s12);
    steps := Walk(steps, Release(0), s12, s13);
    assert s13.results[0] == Result(0, true);
  }
}
