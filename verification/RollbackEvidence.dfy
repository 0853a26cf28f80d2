/** The evidence of a reverted update: a source/target marker that survives reboots until the broker has acknowledged a
    status message that carries it. The OTA task and the MQTT event handler take their steps in any order. */
module RollbackEvidence {
  import opened AttemptMarker
  import opened Options

  type Id = nat

  // The marker, and whether only its source has been written so far; what this boot knows; the MQTT client's
  // unacknowledged status messages and what rollback evidence each carries. `installed` is the target recorded during
  // this boot, `acked` what the broker has been told in all boots.
  datatype State = State(marker: Keys, half: bool, running: string, pending: bool, detected: Option<Evidence>,
                         installed: Option<string>, rollbackMsg: Option<Id>,
                         outstanding: map<Id, Option<Evidence>>, acked: set<Evidence>)

  datatype Step =
    | Boot(version: string, pending: bool, clears: bool)
    | Connect(id: Id, queued: bool)
    | Status(id: Id)
    | Disconnect
    | PubAck(id: Id, clears: bool)
    | MarkSource
    | MarkTarget(target: string)
    | Confirm(clears: bool)

  // The start of a boot: the client has no message under way, and the marker is looked at.
  function Booted(s: State, version: string, pending: bool, clears: bool): State {
    State(KeptByBoot(s.marker, version, pending, clears), false, version, pending, Detected(s.marker, version, pending),
          None, None, map[], s.acked)
  }

  predicate Enabled(s: State, step: Step) {
    match step
    case Boot(_, _, _) => true
    case Connect(id, _) => id !in s.outstanding
    case Status(id) => id !in s.outstanding
    case Disconnect => true
    case PubAck(id, _) => id in s.outstanding
    case MarkSource => !s.pending
    case MarkTarget(_) => !s.pending && s.half
    case Confirm(_) => s.pending
  }

  function After(s: State, step: Step): State
    requires Enabled(s, step)
  {
    match step
    case Boot(version, pending, clears) => Booted(s, version, pending, clears)
    case Connect(id, queued) =>
      if !queued then s
      else
        s.(outstanding := s.outstanding[id := s.detected],
           rollbackMsg := if s.detected.Some? then Some(id) else s.rollbackMsg)
    case Status(id) => s.(outstanding := s.outstanding[id := s.detected])
    case Disconnect => s.(rollbackMsg := None)
    case PubAck(id, clears) =>
      var t := s.(outstanding := s.outstanding - {id},
                  acked := match s.outstanding[id] case None => s.acked case Some(e) => s.acked + {e});
      if s.rollbackMsg != Some(id) then t
      else if clears then t.(marker := NO_KEYS, rollbackMsg := None, detected := None)
      else t.(rollbackMsg := None)
    case MarkSource => s.(marker := s.marker.(source := Some(s.running)), half := true)
    case MarkTarget(target) =>
      s.(marker := s.marker.(target := Some(target)), half := false, installed := Some(target))
    case Confirm(clears) => s.(marker := Erased(s.marker, clears), pending := false)
  }

  predicate Run(s: State, steps: seq<Step>)
    decreases |steps|
  {
    steps == [] || (Enabled(s, steps[0]) && Run(After(s, steps[0]), steps[1..]))
  }

  function Final(s: State, steps: seq<Step>): State
    requires Run(s, steps)
    decreases |steps|
  {
    if steps == [] then s else Final(After(s, steps[0]), steps[1..])
  }

  // --- What every step keeps ---

  // Detected evidence is about the running version, is what the awaited message carries, and is still what the marker
  // says unless a newer install rewrote the target.
  predicate Consistent(s: State) {
    && (s.rollbackMsg.Some? ==>
          s.rollbackMsg.value in s.outstanding && s.detected.Some? && s.outstanding[s.rollbackMsg.value] == s.detected)
    && (s.detected.Some? ==>
          var e := s.detected.value;
          && e.source == s.running && e.source != e.target && !s.pending
          && Marker(s.marker) == Some(Evidence(e.source, if s.installed.Some? then s.installed.value else e.target)))
  }

  lemma StepIsConsistent(s: State, step: Step)
    requires Consistent(s) && Enabled(s, step)
    ensures Consistent(After(s, step))
  {
  }

  lemma {:induction false} RunIsConsistent(s: State, steps: seq<Step>)
    requires Consistent(s) && Run(s, steps)
    ensures Consistent(Final(s, steps))
    decreases |steps|
  {
    hide Consistent, After, Enabled;
    if steps != [] {
      StepIsConsistent(s, steps[0]);
      RunIsConsistent(After(s, steps[0]), steps[1..]);
    }
  }

  /** The acknowledgement that erases the marker: the message carried just that marker exactly when no other target was
      installed since boot. */
  lemma AckErasesWhatItCarried(s0: State, steps: seq<Step>, id: Id)
    requires Consistent(s0) && Run(s0, steps)
    requires var s := Final(s0, steps); s.rollbackMsg == Some(id)
    ensures var s := Final(s0, steps);
            && id in s.outstanding && s.outstanding[id] == s.detected && s.detected.Some?
            && Marker(After(s, PubAck(id, true)).marker) == None
            && (s.outstanding[id] == Marker(s.marker)
                <==> s.installed == None || s.installed == Some(s.detected.value.target))
  {
    RunIsConsistent(s0, steps);
  }

  /** Within a boot the marker goes from present to absent only by that acknowledgement, or by the self-test's
      success. */
  lemma OnlyTheAwaitedAckErases(s: State, step: Step)
    requires Consistent(s) && Enabled(s, step) && !step.Boot?
    requires Marker(s.marker).Some? && Marker(After(s, step).marker) == None
    ensures || step.Confirm?
            || (step.PubAck? && s.rollbackMsg == Some(step.id) && s.outstanding[step.id] == s.detected != None)
  {
  }

  // Other messages are published and acknowledged, on the same connection.
  predicate Unrelated(step: Step, id: Id) {
    step.Status? || (step.PubAck? && step.id != id)
  }

  lemma {:induction false} KeepsWaiting(s: State, id: Id, steps: seq<Step>)
    requires Consistent(s) && s.rollbackMsg == Some(id) && Run(s, steps)
    requires forall step :: step in steps ==> Unrelated(step, id)
    ensures var t := Final(s, steps); Consistent(t) && t.rollbackMsg == Some(id) && t.detected == s.detected
    decreases |steps|
  {
    if steps != [] {
      assert steps[0] in steps && Unrelated(steps[0], id);
      StepIsConsistent(s, steps[0]);
      KeepsWaiting(After(s, steps[0]), id, steps[1..]);
    }
  }

  /** Detected evidence goes out with the next connection: once that status is acknowledged, whatever else was published
      meanwhile, the broker has been told, the marker is gone, and no later boot reports the rollback again. */
  lemma DetectedEvidenceIsDelivered(s: State, id: Id, between: seq<Step>)
    requires Consistent(s) && s.detected.Some? && id !in s.outstanding
    requires Run(After(s, Connect(id, true)), between) && forall step :: step in between ==> Unrelated(step, id)
    ensures var t := Final(After(s, Connect(id, true)), between);
            && Enabled(t, PubAck(id, true))
            && var u := After(t, PubAck(id, true));
               && s.detected.value in u.acked && u.marker == NO_KEYS && u.detected == None
               && forall version, pending, clears :: Booted(u, version, pending, clears).detected == None
  {
    StepIsConsistent(s, Connect(id, true));
    KeepsWaiting(After(s, Connect(id, true)), id, between);
    hide Run, Final;
  }

  /** An install records what it replaces and what it installs, unless a reboot comes in between, and a passed self-test
      forgets it. Both keys are written one after the other, and only as a pair. */
  lemma InstallRecordsBoth(s: State, target: string, version: string, pending: bool, clears: bool)
    requires !s.pending
    ensures var t := After(After(s, MarkSource), MarkTarget(target));
            && t.marker == Keys(Some(s.running), Some(target)) && t.installed == Some(target)
            && !Enabled(t, MarkTarget(target))
            && !Enabled(After(After(s, MarkSource), Boot(version, pending, clears)), MarkTarget(target))
  {
  }

  lemma ConfirmForgets(s: State, version: string, pending: bool, clears: bool)
    requires s.pending
    ensures var t := After(s, Confirm(true));
            t.marker == NO_KEYS && !t.pending && Booted(t, version, pending, clears).detected == None
  {
  }

  /** Any status tells the broker what this boot knows, but only the awaited one's acknowledgement erases the marker. */
  lemma OtherStatusTellsOnly(s: State, id: Id, clears: bool)
    requires Consistent(s) && s.detected.Some? && id !in s.outstanding
    ensures var t := After(After(s, Status(id)), PubAck(id, clears));
            && s.detected.value in t.acked && t.marker == s.marker && t.detected == s.detected
            && !Enabled(t, PubAck(id, clears))
  {
  }

  // Until the next connection of this boot.
  predicate Offline(step: Step) {
    step.Status? || step.PubAck? || step.Disconnect?
  }

  /** After a disconnect nothing is awaited: no late acknowledgement erases the marker before the next connection sends
      the evidence again. A disconnect, like a reboot, can come at any moment. */
  lemma {:induction false} DisconnectForgetsAwaited(s: State, steps: seq<Step>)
    requires s.rollbackMsg == None && Run(s, steps) && forall step :: step in steps ==> Offline(step)
    ensures var t := Final(s, steps);
            && t.marker == s.marker && t.detected == s.detected && t.rollbackMsg == None
            && Enabled(t, Disconnect) && After(t, Disconnect).rollbackMsg == None
            && forall version, pending, clears :: Enabled(t, Boot(version, pending, clears))
    decreases |steps|
  {
    if steps != [] {
      assert steps[0] in steps && Offline(steps[0]);
      DisconnectForgetsAwaited(After(s, steps[0]), steps[1..]);
    }
  }

  // Reboots into the source version, connections, status messages and acknowledgements, but no finished install.
  predicate Uneventful(step: Step, e: Evidence) {
    match step
    case Boot(version, pending, _) => version == e.source && !pending
    case MarkTarget(_) => false
    case Confirm(_) => false
    case _ => true
  }

  /** Over any number of reboots and reconnects the marker stays until a status message carrying it has been
      acknowledged, and while it stays every boot finds it again. */
  lemma {:induction false} EvidencePersists(s: State, e: Evidence, steps: seq<Step>)
    requires Consistent(s) && Marker(s.marker) == Some(e) && e.source == s.running && e.source != e.target
    requires !s.pending && s.installed == None
    requires Run(s, steps) && forall step :: step in steps ==> Uneventful(step, e)
    ensures var t := Final(s, steps);
            || e in t.acked
            || (&& Marker(t.marker) == Some(e)
                && forall clears: bool :: Booted(t, e.source, false, clears).detected == Some(e))
    decreases |steps|
  {
    if steps != [] {
      var step, t := steps[0], After(s, steps[0]);
      assert step in steps && Uneventful(step, e);
      StepIsConsistent(s, step);
      if Marker(t.marker) == Some(e) {
        EvidencePersists(t, e, steps[1..]);
      } else {
        assert e in t.acked;
        AckedStays(t, e, steps[1..]);
      }
    }
  }

  lemma {:induction false} AckedStays(s: State, e: Evidence, steps: seq<Step>)
    requires e in s.acked && Run(s, steps)
    ensures e in Final(s, steps).acked
    decreases |steps|
  {
    if steps != [] {
      AckedStays(After(s, steps[0]), e, steps[1..]);
    }
  }

  /** What the code does not prevent: a newer image is installed while the rollback status is still unacknowledged, and
      the late acknowledgement erases the new attempt's marker, of which the broker knows nothing. */
  lemma LateAckErasesNewMarker(s: State, id: Id, target: string)
    requires Consistent(s) && s.rollbackMsg == Some(id) && target != s.detected.value.target
    requires Evidence(s.running, target) !in s.acked
    ensures var t := After(After(s, MarkSource), MarkTarget(target));
            var u := After(t, PubAck(id, true));
            && Marker(t.marker) == Some(Evidence(s.running, target))
            && Marker(u.marker) == None && Evidence(s.running, target) !in u.acked
            && forall clears: bool :: Booted(u, s.running, false, clears).detected == None
  {
  }
}
