/** What holds over every run of the updater: a verified image to fall back on, and nothing bootable unverified. */
module OtaSafety {
  import opened AttemptMarker
  import opened Options
  import opened Ota

  predicate VerifiedSlot(env: Env, slot: Slot) {
    HashOk(env, slot.bytes, slot.verified)
  }

  // An image that the bootloader goes on booting: confirmed by its self-test, or flashed over the cable.
  predicate Settled(slot: Slot) {
    slot.state == Valid || slot.state == Undefined
  }

  predicate Confirmed(env: Env, slot: Slot) {
    Settled(slot) && VerifiedSlot(env, slot)
  }

  // Between making an image bootable and the restart into it.
  predicate Installed(pc: Pc) {
    pc.Finished? || pc.Attempting? || pc.Restarting?
  }

  // Either the running image is confirmed, and boots again or has just been superseded by a verified new one, or it is
  // on trial and the image it came from is intact in the other slot.
  predicate Safe(env: Env, s: State) {
    && Shaped(s)
    && var running, passive := s.slots[s.running], s.slots[Passive(s)];
       if s.pc.SelfTest? then
         && running.state == Pending && s.boot == s.running && VerifiedSlot(env, running)
         && Confirmed(env, passive) && passive.bytes == s.source
       else if Installed(s.pc) then
         && Confirmed(env, running) && running.bytes == s.source
         && s.boot == Passive(s) && passive.state == New && VerifiedSlot(env, passive)
       else
         && Confirmed(env, running) && s.boot == s.running
         && (s.pc.Finishing? ==> HashOk(env, passive.bytes, s.pc.m))
  }

  /** What the bootloader makes of any flash, safe or not: a slot that is new, confirmed or unmarked runs, the first
      time on trial; from any other it falls back to the other slot, for good. */
  lemma BootPicks(s: State)
    requires Shaped(s)
    ensures var t, state := Booted(s), s.slots[s.boot].state;
            var bootable := state == New || state == Valid || state == Undefined;
            && t.running == t.boot == (if bootable then s.boot else 1 - s.boot)
            && (t.pc == if state == New then SelfTest else Idle)
            && (forall i :: 0 <= i < 2 ==>
                  && t.slots[i].bytes == s.slots[i].bytes && t.slots[i].verified == s.slots[i].verified
                  && t.slots[i].state == (if i != s.boot then s.slots[i].state
                                          else if state == New then Pending
                                          else if state == Pending then Aborted
                                          else state))
            && t.record == s.record && t.marker == s.marker
  {
  }

  lemma BootIsSafe(env: Env, s: State)
    requires Safe(env, s)
    ensures Safe(env, Booted(s))
  {
    hide HashOk;
  }

  // The marker has no say in which slot holds what.
  lemma MarkersAreApart(env: Env, s: State, marker: Keys, detected: Option<Evidence>)
    requires Safe(env, s)
    ensures Safe(env, s.(marker := marker, detected := detected))
  {
    hide HashOk;
  }

  lemma ResetIsSafe(env: Env, s: State, clears: bool)
    requires Safe(env, s)
    ensures Shaped(Booted(s)) && Safe(env, Started(env, Booted(s), clears))
  {
    BootIsSafe(env, s);
    var t := Booted(s);
    MarkersAreApart(env, t, Started(env, t, clears).marker, Started(env, t, clears).detected);
    hide Safe;
  }

  predicate Transfers(step: Step) {
    step.Begin? || step.Receive? || step.SaveKey? || step.Break? || step.Complete? || step.Abandon?
  }

  lemma DownloadIsSafe(env: Env, s: State, step: Step)
    requires Safe(env, s) && Enabled(s, step)
    requires Transfers(step)
    ensures Safe(env, After(env, s, step))
  {
    hide HashOk, Write, ResumeLen;
  }

  lemma DecisionIsSafe(env: Env, s: State, step: Step)
    requires Safe(env, s) && Enabled(s, step) && !step.Reset? && !Transfers(step)
    ensures Safe(env, After(env, s, step))
  {
    hide HashOk, Booted, AfterBegin, AfterReceive, AfterSaveKey;
  }

  lemma StepIsSafe(env: Env, s: State, step: Step)
    requires Safe(env, s) && Enabled(s, step)
    ensures Safe(env, After(env, s, step))
  {
    hide Safe, HashOk, Booted, AfterBegin, AfterReceive, AfterSaveKey, AfterVerify, AfterFinish, RolledBack;
    if step.Reset? {
      ResetIsSafe(env, s, step.clears);
    } else if Transfers(step) {
      DownloadIsSafe(env, s, step);
    } else {
      DecisionIsSafe(env, s, step);
    }
  }

  lemma {:induction false} RunIsSafe(env: Env, s: State, steps: seq<Step>)
    requires Safe(env, s) && Run(env, s, steps)
    ensures Safe(env, Final(env, s, steps))
    decreases |steps|
  {
    hide Safe, After, Enabled;
    if steps != [] {
      StepIsSafe(env, s, steps[0]);
      RunIsSafe(env, After(env, s, steps[0]), steps[1..]);
    }
  }

  // A board running a confirmed image; the other slot and the resume record may hold anything.
  predicate Fresh(env: Env, s: State) {
    Shaped(s) && s.pc.Idle? && s.boot == s.running && Confirmed(env, s.slots[s.running])
  }

  /** Over all boots, checks, installs, self-test outcomes and power cuts, some slot holds a confirmed image, and while
      the running image is on trial the other slot holds, byte for byte, the confirmed image it was installed from. */
  lemma AConfirmedImageRemains(env: Env, s: State, steps: seq<Step>)
    requires Fresh(env, s) && Run(env, s, steps)
    ensures var t := Final(env, s, steps);
            && Shaped(t)
            && (exists i :: 0 <= i < 2 && Confirmed(env, t.slots[i]))
            && (t.slots[t.running].state == Pending ==>
                  && Confirmed(env, t.slots[Passive(t)]) && t.slots[Passive(t)].bytes == t.source
                  && Booted(t).running == Passive(t))
  {
    RunIsSafe(env, s, steps);
    var t := Final(env, s, steps);
    assert Confirmed(env, t.slots[t.running]) || Confirmed(env, t.slots[Passive(t)]);
  }

  /** Whatever a stale resume record said, the slot that boots next reads back to its manifest's hash. */
  lemma OnlyVerifiedImagesBoot(env: Env, s: State, steps: seq<Step>)
    requires Fresh(env, s) && Run(env, s, steps)
    ensures var t := Final(env, s, steps);
            Shaped(t) && VerifiedSlot(env, t.slots[t.boot]) && VerifiedSlot(env, t.slots[Booted(t).running])
  {
    hide HashOk, Run, Final;
    RunIsSafe(env, s, steps);
  }
}
