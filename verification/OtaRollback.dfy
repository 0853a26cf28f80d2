/** What becomes of a release whose trial failed: whether it is tried again, and whether the failure is reported. */
module OtaRollback {
  import opened AttemptMarker
  import opened Options
  import opened Ota
  import opened OtaSafety
  import opened OtaResume

  // The other slot holds version v, recorded as aborted, and a confirmed image of another version runs.
  predicate Barred(env: Env, s: State, v: string) {
    && Shaped(s) && s.pc.Idle? && s.boot == s.running
    && Settled(s.slots[s.running]) && env.version(s.slots[s.running].bytes) != v
    && s.slots[Passive(s)].state == Aborted && env.version(s.slots[Passive(s)].bytes) == v
  }

  predicate Offers(steps: seq<Step>, v: string) {
    forall step :: step in steps ==> (step.Check? ==> step.m.version == v)
  }

  /** While the manifest stays at a version whose slot is recorded ABORTED, no check, reset or power cut ever leads to a
      download: the updater stays idle, and both slots stay as they are. */
  lemma {:induction false} RolledBackVersionIsNotRetried(env: Env, s: State, v: string, steps: seq<Step>)
    requires Barred(env, s, v) && Run(env, s, steps) && Offers(steps, v)
    ensures var t := Final(env, s, steps);
            Barred(env, t, v) && t.slots == s.slots && t.running == s.running && t.record == s.record
    decreases |steps|
  {
    if steps != [] {
      assert steps[0] in steps;
      RolledBackVersionIsNotRetried(env, After(env, s, steps[0]), v, steps[1..]);
    }
  }

  /** How the trial ends decides: after the revert the next check of the same manifest leaves the version alone exactly
      when the bootloader or the self-test recorded the slot as ABORTED. A reset during the trial does that; a slot
      recorded INVALID is downloaded again. */
  lemma RetriedUnlessAborted(env: Env, s: State, m: Manifest, recorded: SlotState, clears: bool)
    requires Safe(env, s) && s.pc.SelfTest? && (recorded == Invalid || recorded == Aborted) && m.size > 0
    requires env.version(s.slots[s.running].bytes) == m.version != env.version(s.slots[Passive(s)].bytes)
    ensures Barred(env, After(env, s, Reset(clears)), m.version)
    ensures recorded == Aborted ==> Barred(env, After(env, s, GiveUp(recorded, clears)), m.version)
    ensures After(env, After(env, s, GiveUp(recorded, clears)), Check(m)).pc.Updating? <==> recorded == Invalid
  {
    hide HashOk, KeptByBoot, Detected;
  }

  /** A release that has had its trial gets no second one: once a reset has reverted its image, nothing that happens
      while the same manifest is on offer changes a byte of either slot. */
  lemma NoSecondTrial(env: Env, r: Release, s: State, before: seq<Step>, clears: bool, after: seq<Step>)
    requires Genuine(env, r) && Fresh(env, s) && Trustworthy(env, r, s) && Harmless(r, s.record)
    requires Run(env, s, before) && ServedRun(env, r, s, before)
    requires var t := Final(env, s, before); Shaped(t) && t.pc.SelfTest?
    requires var t := After(env, Final(env, s, before), Reset(clears)); Run(env, t, after) && Offers(after, r.m.version)
    ensures var t := After(env, Final(env, s, before), Reset(clears));
            && t.slots[Passive(t)].bytes == r.image && t.pc.Idle?
            && Final(env, t, after).slots == t.slots && Final(env, t, after).pc.Idle?
  {
    hide Run, Final, ServedRun, HashOk, Harmless, RecordHonest;
    RunIsSafe(env, s, before);
    RunIsHonest(env, r, s, before);
    var t := After(env, Final(env, s, before), Reset(clears));
    TrialBars(env, r, Final(env, s, before), clears);
    RolledBackVersionIsNotRetried(env, t, r.m.version, after);
  }

  lemma TrialBars(env: Env, r: Release, s: State, clears: bool)
    requires Genuine(env, r) && Safe(env, s) && Honest(env, r, s) && s.pc.SelfTest?
    ensures var t := After(env, s, Reset(clears));
            Barred(env, t, r.m.version) && t.slots[Passive(t)].bytes == r.image
  {
    hide HashOk, KeptByBoot, Detected, RecordOurs, RecordHonest;
  }

  // No restart into an installed image: every reset finds the running image the boot choice.
  predicate NoTrial(env: Env, s: State, steps: seq<Step>)
    requires Run(env, s, steps)
    decreases |steps|
  {
    steps == [] || (!(steps[0].Reset? && Installed(s.pc)) && NoTrial(env, After(env, s, steps[0]), steps[1..]))
  }

  lemma StepKeepsRunning(env: Env, s: State, step: Step)
    requires Safe(env, s) && !s.pc.SelfTest? && Enabled(s, step) && !(step.Reset? && Installed(s.pc))
    ensures var t := After(env, s, step);
            && Shaped(t) && !t.pc.SelfTest? && t.running == s.running && t.slots[t.running] == s.slots[s.running]
            && t.slots[Passive(t)].state == if step == Finish(true) then New else s.slots[Passive(s)].state
  {
    hide HashOk, KeptByBoot, Detected, ResumeLen, Write, ReadBack;
  }

  lemma {:induction false} UntriedRun(env: Env, s: State, steps: seq<Step>)
    requires Safe(env, s) && !s.pc.SelfTest? && Run(env, s, steps) && NoTrial(env, s, steps)
    ensures var t := Final(env, s, steps);
            && Safe(env, t) && !t.pc.SelfTest? && t.running == s.running && t.slots[t.running] == s.slots[s.running]
            && t.slots[Passive(t)].state == if Finish(true) in steps then New else s.slots[Passive(s)].state
    decreases |steps|
  {
    if steps != [] {
      hide Safe, After, Enabled;
      StepIsSafe(env, s, steps[0]);
      StepKeepsRunning(env, s, steps[0]);
      UntriedRun(env, After(env, s, steps[0]), steps[1..]);
      assert Finish(true) in steps <==> Finish(true) == steps[0] || Finish(true) in steps[1..];
    }
  }

  /** But a release can be barred without any trial. However a run without one goes, over broken links, power cuts and
      other releases, a wanted release ends up barred exactly when the slot was recorded ABORTED, for whatever older
      version, no image was made bootable in it meanwhile, and what has been written there names the release. */
  lemma UntriedReleaseIsBarredIff(env: Env, s: State, m: Manifest, steps: seq<Step>)
    requires Safe(env, s) && s.pc.Idle? && WantsUpdate(env, s, m)
    requires Run(env, s, steps) && NoTrial(env, s, steps) && Final(env, s, steps).pc.Idle?
    ensures var t := Final(env, s, steps);
            Shaped(t) &&
            (Barred(env, t, m.version)
             <==> && s.slots[Passive(s)].state == Aborted && Finish(true) !in steps
                  && env.version(t.slots[Passive(t)].bytes) == m.version)
  {
    UntriedRun(env, s, steps);
    hide HashOk, Run, Final, NoTrial;
  }

  // A download whose link breaks after its first chunk and does not come back.
  function BrokenDownload(m: Manifest, chunk: string): seq<Step> {
    [Check(m), Begin(true, m.size, false), Receive(chunk), Step.Break, SaveKey(false), Abandon]
  }

  /** No power cut is needed for that: a broken link is enough. */
  lemma BrokenDownloadBars(env: Env, s: State, m: Manifest, chunk: string) returns (t: State)
    requires Safe(env, s) && s.pc.Idle? && WantsUpdate(env, s, m) && m.size > 0 && ResumeLen(s.record, m) == 0
    requires s.slots[Passive(s)].state == Aborted
    requires 0 < |chunk| < RESUME_SAVE_INTERVAL && env.version(chunk) == m.version
    ensures Reaches(env, s, BrokenDownload(m, chunk), t) && Barred(env, t, m.version)
  {
    var steps: seq<Step> := [];
    t := s;
    assert Reaches(env, s, steps, t);
    hide Reaches, HashOk, KeptByBoot, Detected, ResumeLen;
    OneStepMore(env, s, steps, t, Check(m));
    steps, t := steps + [Check(m)], After(env, t, Check(m));
    OneStepMore(env, s, steps, t, Begin(true, m.size, false));
    steps, t := steps + [Begin(true, m.size, false)], After(env, t, Begin(true, m.size, false));
    OneStepMore(env, s, steps, t, Receive(chunk));
    steps, t := steps + [Receive(chunk)], After(env, t, Receive(chunk));
    OneStepMore(env, s, steps, t, Step.Break);
    steps, t := steps + [Step.Break], After(env, t, Step.Break);
    OneStepMore(env, s, steps, t, SaveKey(false));
    steps, t := steps + [SaveKey(false)], After(env, t, SaveKey(false));
    OneStepMore(env, s, steps, t, Abandon);
    steps, t := steps + [Abandon], After(env, t, Abandon);
    assert steps == BrokenDownload(m, chunk);
    assert t.slots[Passive(t)].bytes == chunk;
  }

  // --- Whether the failure is reported ---

  predicate Reverts(step: Step) {
    step.Reset? || (step.GiveUp? && (step.recorded == Invalid || step.recorded == Aborted))
  }

  lemma TrialBegins(env: Env, s: State, clears: bool)
    requires Safe(env, s) && Installed(s.pc)
    ensures var t := After(env, s, Reset(clears));
            && Safe(env, t) && t.pc.SelfTest? && t.running == Passive(s) && Passive(t) == s.running
            && (forall i :: 0 <= i < 2 ==> t.slots[i].bytes == s.slots[i].bytes)
            && t.marker == KeptByBoot(s.marker, env.version(s.slots[Passive(s)].bytes), true, clears)
  {
    ResetIsSafe(env, s, clears);
    hide HashOk, KeptByBoot, Detected;
  }

  lemma TrialReverts(env: Env, s: State, revert: Step)
    requires Safe(env, s) && s.pc.SelfTest?
    requires Reverts(revert)
    ensures var t := After(env, s, revert);
            t.running == Passive(s)
            && t.detected == Detected(s.marker, env.version(s.slots[Passive(s)].bytes), false)
  {
    hide HashOk, KeptByBoot, Detected;
  }

  // Installing an image is not yet a trial of it, and what the marker says at the restart decides.
  lemma MarkerDecides(env: Env, s: State, clears: bool, revert: Step)
    requires Safe(env, s) && Installed(s.pc) && Reverts(revert)
    requires env.version(s.slots[Passive(s)].bytes) != env.version(s.slots[s.running].bytes)
    ensures var told := Evidence(env.version(s.slots[s.running].bytes), env.version(s.slots[Passive(s)].bytes));
            var trial := After(env, s, Reset(clears));
            && Shaped(trial) && Enabled(trial, revert)
            && After(env, trial, revert).running == s.running
            && (After(env, trial, revert).detected == Some(told) <==> Marker(s.marker) == Some(told))
  {
    TrialBegins(env, s, clears);
    TrialReverts(env, After(env, s, Reset(clears)), revert);
    hide Safe, After;
  }

  // The acknowledgement of an earlier rollback comes in, or not.
  function Acked(env: Env, s: State, comes: bool): State
    requires Shaped(s) && (comes ==> s.detected.Some?)
  {
    if comes then After(env, s, Acknowledge(true)) else s
  }

  // How far an install gets before the restart: so many keys of the marker are written, and the acknowledgement of an
  // earlier rollback comes in before, between or after them, or not at all.
  function BeforeTrial(env: Env, s: State, keys: nat, acked: Option<nat>): (t: State)
    requires Safe(env, s) && s.pc.Attempting? && !s.pc.half && keys <= 2
    requires acked.Some? ==> s.detected.Some? && acked.value <= keys
    ensures Safe(env, t) && Installed(t.pc) && t.running == s.running && t.slots == s.slots
  {
    var a := Acked(env, s, acked == Some(0));
    if keys == 0 then a
    else
      var b := Acked(env, After(env, a, SaveAttempt(true)), acked == Some(1));
      if keys == 1 then b else Acked(env, After(env, b, SaveAttempt(true)), acked == Some(2))
  }

  lemma MarkerBeforeTrial(env: Env, s: State, keys: nat, acked: Option<nat>)
    requires Safe(env, s) && s.pc.Attempting? && !s.pc.half && keys <= 2
    requires acked.Some? ==> s.detected.Some? && acked.value <= keys
    ensures var told := Evidence(env.version(s.slots[s.running].bytes), s.pc.m.version);
            var named := if keys == 0 then Marker(s.marker) == Some(told) else s.marker.target == Some(told.target);
            Marker(BeforeTrial(env, s, keys, acked).marker) == Some(told)
            <==> (keys == 2 && (acked == None || acked == Some(0))) || (keys < 2 && named && acked == None)
  {
    hide HashOk, KeptByBoot, Detected;
  }

  /** An image has become bootable and its trial will fail, wherever power was lost and whenever the acknowledgement of
      an earlier rollback came in. The boot after that finds the rollback exactly when both keys of the marker were
      written and no acknowledgement came after the first, or the missing ones named these versions already and none
      came at all. */
  lemma RevertedTrialIsReportedIff(env: Env, s: State, keys: nat, acked: Option<nat>, clears: bool, revert: Step)
    requires Safe(env, s) && s.pc.Attempting? && !s.pc.half && keys <= 2 && Reverts(revert)
    requires acked.Some? ==> s.detected.Some? && acked.value <= keys
    requires env.version(s.slots[Passive(s)].bytes) == s.pc.m.version != env.version(s.slots[s.running].bytes)
    ensures var told := Evidence(env.version(s.slots[s.running].bytes), s.pc.m.version);
            var trial := After(env, BeforeTrial(env, s, keys, acked), Reset(clears));
            var named := if keys == 0 then Marker(s.marker) == Some(told) else s.marker.target == Some(told.target);
            && Shaped(trial) && Enabled(trial, revert) && After(env, trial, revert).running == s.running
            && (After(env, trial, revert).detected == Some(told)
                <==> (keys == 2 && (acked == None || acked == Some(0))) || (keys < 2 && named && acked == None))
  {
    MarkerBeforeTrial(env, s, keys, acked);
    MarkerDecides(env, BeforeTrial(env, s, keys, acked), clears, revert);
    hide Safe, Reverts, After, BeforeTrial, Enabled;
  }

  /** A passed self-test ends the matter: the image is the one that boots from then on, and no marker is left that a
      later boot could report. */
  lemma ConfirmedTrialIsOver(env: Env, s: State, clears: bool)
    requires Safe(env, s) && s.pc.SelfTest?
    ensures var t := After(env, s, Confirm(true));
            var u := After(env, t, Reset(clears));
            && t.slots[t.running].state == Valid && t.pc.Idle? && Booted(t).running == s.running
            && t.marker == NO_KEYS && u.detected == None && u.running == s.running
            && forall i :: 0 <= i < 2 ==> u.slots[i].bytes == s.slots[i].bytes
  {
    hide HashOk;
  }

  /** When the attempt cannot be recorded, the running image, confirmed and untouched, is what boots again. */
  lemma RestoreReturnsToTheSameImage(env: Env, s: State)
    requires Safe(env, s) && s.pc.Attempting?
    ensures var t := After(env, s, SaveAttempt(false));
            && Fresh(env, t) && t.slots == s.slots && t.slots[t.boot].bytes == s.source
            && Booted(t).running == s.running
  {
    hide HashOk;
  }
}
