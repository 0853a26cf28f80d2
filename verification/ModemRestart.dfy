/** Restart requests to the modem task, made from other tasks at any moment of its loop. */
module ModemRestart {

  datatype Restart = Idle | Requested | Resetting | WaitingAt | Complete | Error

  // Where the modem task is in its loop. Picked is between taking the request flag and publishing RESETTING.
  datatype Pc = Top | Picked | Commanding | Probing(issued: bool) | Timing | Publishing

  // The shared flag and published state, the task's own copy of the state, and the counters.
  datatype State = State(flag: bool, published: Restart, st: Restart, atOk: bool, pc: Pc,
                         accepted: nat, begun: nat, completed: nat, failed: nat)

  datatype Step =
    | Request
    | PickUp
    | Begin
    | Command(ok: bool)
    | Probe(pppUp: bool, responds: bool)
    | Expire(late: bool)
    | Publish(atOk: bool)

  const START := State(false, Idle, Idle, false, Top, 0, 0, 0, 0)

  predicate Active(r: Restart) {
    r == Requested || r == Resetting || r == WaitingAt
  }

  predicate Accepts(s: State) {
    !s.flag && !Active(s.published)
  }

  predicate Enabled(s: State, step: Step) {
    match step
    case Request => true
    case PickUp => s.pc.Top?
    case Begin => s.pc.Picked?
    case Command(_) => s.pc.Commanding?
    case Probe(_, _) => s.pc.Probing?
    case Expire(_) => s.pc.Timing?
    case Publish(_) => s.pc.Publishing?
  }

  function After(s: State, step: Step): State
    requires Enabled(s, step)
  {
    match step
    case Request =>
      if Accepts(s) then s.(flag := true, published := Requested, accepted := s.accepted + 1) else s
    case PickUp => s.(flag := false, pc := if s.flag then Picked else Probing(false))
    case Begin => s.(st := Resetting, published := Resetting, begun := s.begun + 1, pc := Commanding)
    case Command(ok) =>
      if ok then s.(st := WaitingAt, atOk := false, pc := Probing(true))
      else s.(st := Error, failed := s.failed + 1, pc := Probing(false))
    case Probe(pppUp, responds) =>
      if s.pc.issued || s.atOk || pppUp || !responds then s.(pc := Timing)
      else if s.st == WaitingAt then s.(atOk := true, st := Complete, completed := s.completed + 1, pc := Timing)
      else s.(atOk := true, pc := Timing)
    case Expire(late) =>
      if s.st == WaitingAt && late then s.(st := Error, failed := s.failed + 1, pc := Publishing)
      else s.(pc := Publishing)
    case Publish(atOk) => s.(published := s.st, atOk := s.atOk && atOk, pc := Top)
  }

  predicate Run(s: State, steps: seq<Step>)
    decreases |steps|
  {
    steps == [] || (Enabled(s, steps[0]) && Run(After(s, steps[0]), steps[1..]))
  }

  function Final(s: State, steps: seq<Step>): State
    requires Run(s, steps)
    decreases |steps|
  {
    if steps == [] then s else Final(After(s, steps[0]), steps[1..])
  }

  function Count(b: bool): nat {
    if b then 1 else 0
  }

  // Every accepted request is pending, in the modem task's hands, or has begun its restart.
  predicate RequestsKept(s: State) {
    s.accepted == s.begun + Count(s.flag) + Count(s.pc.Picked?)
  }

  predicate InProgress(s: State) {
    s.st == Resetting || s.st == WaitingAt
  }

  // Restarts that began have completed or failed, except the one in progress.
  predicate RestartsKept(s: State) {
    s.begun == s.completed + s.failed + Count(InProgress(s))
  }

  /** In every interleaving, accepted requests are the restarts begun and the one pending. */
  lemma {:induction false} RequestsAreConserved(s: State, steps: seq<Step>)
    requires RequestsKept(s) && Run(s, steps)
    ensures RequestsKept(Final(s, steps))
    decreases |steps|
  {
    if steps != [] {
      RequestsAreConserved(After(s, steps[0]), steps[1..]);
    }
  }

  // --- Restarts that began ---

  // What every step keeps, in every interleaving.
  predicate Regular(s: State) {
    && (s.st == Resetting <==> s.pc.Commanding?)
    && s.st != Requested
    && (s.pc.Probing? && s.pc.issued ==> s.st == WaitingAt)
  }

  // A restart begins while the one before still waits for the modem.
  predicate Overlapping(s: State, step: Step) {
    step.Begin? && s.st == WaitingAt
  }

  /** The one step that loses a restart: beginning another on top of it. */
  lemma StepLosesRestartIff(s: State, step: Step)
    requires Regular(s) && RestartsKept(s) && Enabled(s, step)
    ensures Regular(After(s, step)) && (RestartsKept(After(s, step)) <==> !Overlapping(s, step))
  {
  }

  // How often that happens in a run.
  function Overlaps(s: State, steps: seq<Step>): nat
    requires Run(s, steps)
    decreases |steps|
  {
    if steps == [] then 0 else Count(Overlapping(s, steps[0])) + Overlaps(After(s, steps[0]), steps[1..])
  }

  // The restarts neither completed nor failed nor in progress.
  function Lost(s: State): int {
    s.begun - (s.completed + s.failed + Count(InProgress(s)))
  }

  lemma StepLoses(s: State, step: Step)
    requires Regular(s) && Enabled(s, step)
    ensures Regular(After(s, step)) && Lost(After(s, step)) == Lost(s) + Count(Overlapping(s, step))
  {
  }

  lemma {:induction false} RunLoses(s: State, steps: seq<Step>)
    requires Regular(s) && Run(s, steps)
    ensures Regular(Final(s, steps)) && Lost(Final(s, steps)) == Lost(s) + Overlaps(s, steps)
    decreases |steps|
  {
    hide Regular, Lost, After, Enabled, Overlapping;
    if steps != [] {
      StepLoses(s, steps[0]);
      RunLoses(After(s, steps[0]), steps[1..]);
    }
  }

  /** In every interleaving, divided pick-ups included: the restarts that began are those that completed, those that
      failed, the one in progress, and one for each restart that began on top of one still waiting. So none is lost
      exactly when no restart begins on top of another. */
  lemma RestartsAreConserved(s: State, steps: seq<Step>)
    requires s == START && Run(s, steps)
    ensures var t := Final(s, steps);
            && t.begun == t.completed + t.failed + Count(InProgress(t)) + Overlaps(s, steps)
            && (RestartsKept(t) <==> Overlaps(s, steps) == 0)
  {
    hide Run, Overlaps, Final;
    RunLoses(s, steps);
  }

  // --- How restarts end ---

  // A modem that a restart waits for has not answered yet, so that the next probe asks it.
  predicate Unanswered(s: State) {
    s.st == WaitingAt ==> !s.atOk
  }

  // The modem answers a probe, in a later round than the one that sent the reset command.
  predicate Answers(s: State, step: Step)
    requires Enabled(s, step)
  {
    step == Probe(false, true) && !s.pc.issued && s.st == WaitingAt
  }

  // The reset command is refused, or the modem has stayed away for too long.
  predicate Fails(s: State, step: Step)
    requires Enabled(s, step)
  {
    step == Command(false) || (step == Expire(true) && s.st == WaitingAt)
  }

  function Answered(s: State, steps: seq<Step>): nat
    requires Run(s, steps)
    decreases |steps|
  {
    if steps == [] then 0 else Count(Answers(s, steps[0])) + Answered(After(s, steps[0]), steps[1..])
  }

  function Failures(s: State, steps: seq<Step>): nat
    requires Run(s, steps)
    decreases |steps|
  {
    if steps == [] then 0 else Count(Fails(s, steps[0])) + Failures(After(s, steps[0]), steps[1..])
  }

  lemma StepEnds(s: State, step: Step)
    requires Unanswered(s) && Enabled(s, step)
    ensures var t := After(s, step);
            && Unanswered(t)
            && t.completed == s.completed + Count(Answers(s, step)) && t.failed == s.failed + Count(Fails(s, step))
            && (Answers(s, step) ==> t.st == Complete) && (Fails(s, step) ==> t.st == Error)
  {
  }

  lemma {:induction false} RunEnds(s: State, steps: seq<Step>)
    requires Unanswered(s) && Run(s, steps)
    ensures var t := Final(s, steps);
            && Unanswered(t)
            && t.completed == s.completed + Answered(s, steps) && t.failed == s.failed + Failures(s, steps)
    decreases |steps|
  {
    hide Unanswered, After, Enabled, Answers, Fails;
    if steps != [] {
      StepEnds(s, steps[0]);
      RunEnds(After(s, steps[0]), steps[1..]);
    }
  }

  /** In every interleaving, a restart counts as completed for each answer of a modem that one waits for, and as failed
      for each refused reset command and each timeout while one waits. */
  lemma RestartsEndAsCounted(s: State, steps: seq<Step>)
    requires s == START && Run(s, steps)
    ensures Final(s, steps).completed == Answered(s, steps) && Final(s, steps).failed == Failures(s, steps)
  {
    hide Run, Final, Answered, Failures;
    RunEnds(s, steps);
  }

  // The rest of a round of the loop, from the probe on.
  function RoundEnd(s: State, pppUp: bool, responds: bool, late: bool, atOk: bool): State
    requires s.pc.Probing?
  {
    After(After(After(s, Probe(pppUp, responds)), Expire(late)), Publish(atOk))
  }

  /** A restart that is answered before its time is up is published as complete at the end of that round, one that is
      not as an error, and one still waiting as such. */
  lemma OutcomeIsPublished(s: State, steps: seq<Step>, responds: bool, late: bool, atOk: bool)
    requires s == START && Run(s, steps)
    requires var t := Final(s, steps); t.pc == Probing(false) && t.st == WaitingAt
    ensures var t := Final(s, steps);
            var u := RoundEnd(t, false, responds, late, atOk);
            && u.published == (if responds then Complete else if late then Error else WaitingAt)
            && u.completed == t.completed + Count(responds)
            && u.failed == t.failed + Count(!responds && late)
  {
    hide Run;
    RunEnds(s, steps);
    hide Final, Answered, Failures;
  }

  /** Whether the modem answers is asked, in a round that has sent no reset command and while PPP is down, only of one
      that does not count as answering; from then on it does, until a command fails or the next restart. */
  lemma AnswerIsRemembered(s: State, pppUp: bool, responds: bool, late: bool, atOk: bool)
    requires s.pc.Probing?
    ensures RoundEnd(s, pppUp, responds, late, atOk).atOk
            <==> (s.atOk || (!s.pc.issued && !pppUp && responds)) && atOk
    ensures s.st != WaitingAt || pppUp || s.pc.issued || s.atOk ==>
              RoundEnd(s, pppUp, responds, late, atOk).completed == s.completed
    ensures RoundEnd(s, pppUp, responds, late, atOk).pc == Top
  {
  }

  // --- Pick-ups that are one step ---

  // No request is accepted between taking the flag and publishing RESETTING; so it is when these are one step.
  predicate Undivided(s: State, step: Step) {
    step.Request? && s.pc.Picked? ==> !Accepts(s)
  }

  predicate UndividedRun(s: State, steps: seq<Step>)
    requires Run(s, steps)
    decreases |steps|
  {
    steps == [] || (Undivided(s, steps[0]) && UndividedRun(After(s, steps[0]), steps[1..]))
  }

  // While a restart is in progress the published state says so, and no request is pending.
  predicate Exclusive(s: State) {
    && Regular(s)
    && (InProgress(s) ==> !s.flag && (s.published == Resetting || s.published == WaitingAt) && !s.pc.Picked?)
    && (s.pc.Picked? ==> !s.flag)
    && (s.pc.Commanding? ==> s.published == Resetting)
  }

  lemma StepExcludes(s: State, step: Step)
    requires Exclusive(s) && Enabled(s, step) && Undivided(s, step)
    ensures Exclusive(After(s, step)) && !Overlapping(s, step)
  {
  }

  lemma {:induction false} RunExcludes(s: State, steps: seq<Step>)
    requires Exclusive(s) && Run(s, steps) && UndividedRun(s, steps)
    ensures Overlaps(s, steps) == 0
    decreases |steps|
  {
    hide Exclusive, After, Enabled, Undivided, Overlapping;
    if steps != [] {
      StepExcludes(s, steps[0]);
      RunExcludes(After(s, steps[0]), steps[1..]);
    }
  }

  /** With the pick-up undivided no restart begins on top of another, so every restart that began has completed or
      failed, except one while it is resetting or waiting. */
  lemma UndividedPickUpsLoseNothing(s: State, steps: seq<Step>)
    requires s == START && Run(s, steps) && UndividedRun(s, steps)
    ensures Overlaps(s, steps) == 0 && RestartsKept(Final(s, steps))
  {
    hide Run, UndividedRun, Final, Overlaps;
    RunExcludes(s, steps);
    RestartsAreConserved(s, steps);
  }

  // --- The pick-up must not be divided ---

  lemma {:induction false} Walk(s: State, steps: seq<Step>, t: State, step: Step, u: State) returns (more: seq<Step>)
    requires Run(s, steps) && Final(s, steps) == t && Enabled(t, step) && After(t, step) == u
    ensures more == steps + [step] && Run(s, more) && Final(s, more) == u
    decreases |steps|
  {
    hide After, Enabled;
    more := steps + [step];
    if steps == [] {
      assert more[1..] == [];
    } else {
      var rest := Walk(After(s, steps[0]), steps[1..], t, step, u);
      assert more[1..] == rest;
    }
  }

  // A request lands after the flag was looked at; the end of the loop overwrites its published state.
  lemma RequestMidLoop(s0: State) returns (steps: seq<Step>)
    requires s0 == START
    ensures Run(s0, steps) && Final(s0, steps) == State(false, Idle, Idle, true, Picked, 1, 0, 0, 0)
  {
    steps := [];
    assert Run(s0, steps) && Final(s0, steps) == s0;
    var t0 := START;
    hide Run, Final;
    var t1 := State(false, Idle, Idle, false, Probing(false), 0, 0, 0, 0);
    var t2 := State(true, Requested, Idle, false, Probing(false), 1, 0, 0, 0);
    var t3 := State(true, Requested, Idle, true, Timing, 1, 0, 0, 0);
    var t4 := State(true, Requested, Idle, true, Publishing, 1, 0, 0, 0);
    var t5 := State(true, Idle, Idle, true, Top, 1, 0, 0, 0);
    var t6 := State(false, Idle, Idle, true, Picked, 1, 0, 0, 0);
    steps := Walk(s0, steps, t0, PickUp, t1);
    steps := Walk(s0, steps, t1, Request, t2);
    steps := Walk(s0, steps, t2, Probe(false, true), t3);
    steps := Walk(s0, steps, t3, Expire(false), t4);
    steps := Walk(s0, steps, t4, Publish(true), t5);
    steps := Walk(s0, steps, t5, PickUp, t6);
  }

  // So a second request is accepted between taking the flag and publishing RESETTING.
  lemma RequestInsidePickUp(s0: State, before: seq<Step>) returns (steps: seq<Step>)
    requires Run(s0, before) && Final(s0, before) == State(false, Idle, Idle, true, Picked, 1, 0, 0, 0)
    ensures Run(s0, steps) && Final(s0, steps) == State(true, Resetting, WaitingAt, false, Publishing, 2, 1, 0, 0)
  {
    steps := before;
    var t6 := State(false, Idle, Idle, true, Picked, 1, 0, 0, 0);
    hide Run, Final;
    var t7 := State(true, Requested, Idle, true, Picked, 2, 0, 0, 0);
    var t8 := State(true, Resetting, Resetting, true, Commanding, 2, 1, 0, 0);
    var t9 := State(true, Resetting, WaitingAt, false, Probing(true), 2, 1, 0, 0);
    var t10 := State(true, Resetting, WaitingAt, false, Timing, 2, 1, 0, 0);
    var t11 := State(true, Resetting, WaitingAt, false, Publishing, 2, 1, 0, 0);
    steps := Walk(s0, steps, t6, Request, t7);
    steps := Walk(s0, steps, t7, Begin, t8);
    steps := Walk(s0, steps, t8, Command(true), t9);
    steps := Walk(s0, steps, t9, Probe(false, true), t10);
    steps := Walk(s0, steps, t10, Expire(false), t11);
  }

  /** Were a request accepted between taking the flag and publishing RESETTING, a second restart could begin on top of
      the first, which would then be counted neither as completed nor as failed nor as in progress. */
  lemma DividedPickUpFails(s: State) returns (steps: seq<Step>)
    requires s == START
    ensures Run(s, steps) && !UndividedRun(s, steps) && Overlaps(s, steps) == 1
    ensures var t := Final(s, steps); t.begun == 2 && t.completed + t.failed == 0
  {
    steps := RequestMidLoop(s);
    steps := RequestInsidePickUp(s, steps);
    hide Run, Final, UndividedRun, Overlaps;
    var t11 := State(true, Resetting, WaitingAt, false, Publishing, 2, 1, 0, 0);
    var t12 := State(true, WaitingAt, WaitingAt, false, Top, 2, 1, 0, 0);
    var t13 := State(false, WaitingAt, WaitingAt, false, Picked, 2, 1, 0, 0);
    var t14 := State(false, Resetting, Resetting, false, Commanding, 2, 2, 0, 0);
    steps := Walk(s, steps, t11, Publish(true), t12);
    steps := Walk(s, steps, t12, PickUp, t13);
    steps := Walk(s, steps, t13, Begin, t14);
    RestartsAreConserved(s, steps);
    if UndividedRun(s, steps) {
      UndividedPickUpsLoseNothing(s, steps);
      assert false;
    }
  }
}
