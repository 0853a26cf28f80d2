/** With one release on offer: when a resume record can be trusted, and when it misleads. */
module OtaResume {
  import opened AttemptMarker
  import opened Options
  import opened Ota
  import opened OtaSafety

  // The server offers one image under one manifest, which names its version and size.
  datatype Release = Release(m: Manifest, image: string)

  predicate Genuine(env: Env, r: Release) {
    r.m.size == |r.image| && env.version(r.image) == r.m.version
  }

  predicate Serves(r: Release, s: State, step: Step)
    requires Enabled(s, step)
  {
    match step
    case Check(m) => m == r.m
    case Begin(ok, size, _) => ok ==> size == |r.image|
    case Receive(chunk) => s.pc.got + |chunk| <= |r.image| && r.image[s.pc.got..s.pc.got + |chunk|] == chunk
    case Complete => s.pc.got == |r.image|
    case _ => true
  }

  predicate ServedRun(env: Env, r: Release, s: State, steps: seq<Step>)
    requires Run(env, s, steps)
    decreases |steps|
  {
    steps == [] || (Serves(r, s, steps[0]) && ServedRun(env, r, After(env, s, steps[0]), steps[1..]))
  }

  predicate Prefix(r: Release, bytes: string, n: nat) {
    n <= |bytes| && n <= |r.image| && bytes[..n] == r.image[..n]
  }

  predicate RecordHonest(r: Release, s: State)
    requires Shaped(s)
  {
    Prefix(r, s.slots[Passive(s)].bytes, ResumeLen(s.record, r.m))
  }

  // A length that was recorded for another release can do no harm when it is too short to mislead, or past the image's
  // end.
  predicate Harmless(r: Release, record: Record) {
    record.len.Some? ==> Matches(record, r.m) || record.len.value <= 1 || record.len.value >= r.m.size
  }

  // The record may be half written, but only for this release.
  predicate RecordOurs(r: Release, s: State) {
    && Harmless(r, s.record)
    && (s.pc.Saving? ==>
          && s.pc.got > 0
          && (s.pc.stage > 0 ==> s.record.version == Some(r.m.version))
          && (s.pc.stage > 1 ==> Matches(s.record, r.m)))
  }

  predicate Busy(pc: Pc) {
    !pc.SelfTest? && !pc.Idle? && !pc.Restarting?
  }

  // Bytes on flash are the image's as far as the updater believes, and an installed image is the release itself.
  predicate Honest(env: Env, r: Release, s: State) {
    && Shaped(s)
    && var running, passive := s.slots[s.running], s.slots[Passive(s)];
       && (Busy(s.pc) ==> s.pc.m == r.m)
       && (Busy(s.pc) || Installed(s.pc) ==> env.version(running.bytes) != r.m.version)
       && (s.pc.Downloading? || s.pc.Saving? ==>
             && Prefix(r, passive.bytes, s.pc.got) && ResumeLen(s.record, r.m) <= s.pc.got
             && (s.pc.got == |r.image| ==> passive.bytes == r.image))
       && (s.pc.Verifying? || s.pc.Finishing? || Installed(s.pc) ==> passive.bytes == r.image)
       && (s.pc.SelfTest? ==> running.bytes == r.image && env.version(passive.bytes) != r.m.version)
       && RecordOurs(r, s) && (env.version(running.bytes) != r.m.version ==> RecordHonest(r, s))
  }

  lemma ReceivesPrefix(r: Release, bytes: string, got: nat, chunk: string)
    requires Prefix(r, bytes, got) && got + |chunk| <= |r.image| && r.image[got..got + |chunk|] == chunk
    ensures var b := Write(bytes, got, chunk);
            && Prefix(r, b, got + |chunk|) && (forall n: nat :: n <= got ==> Prefix(r, b, n))
            && (got + |chunk| == |r.image| ==> b == r.image)
  {
  }

  lemma WholeImageIsHonest(r: Release, record: Record)
    requires r.m.size == |r.image|
    ensures Prefix(r, r.image, ResumeLen(record, r.m))
  {
  }

  lemma ReceiveIsHonest(env: Env, r: Release, s: State, chunk: string)
    requires Genuine(env, r) && Honest(env, r, s) && Enabled(s, Receive(chunk)) && Serves(r, s, Receive(chunk))
    ensures Honest(env, r, AfterReceive(s, chunk))
  {
    ReceivesPrefix(r, s.slots[Passive(s)].bytes, s.pc.got, chunk);
    hide SameHex, Write, Prefix, Matches;
  }

  lemma BeginIsHonest(env: Env, r: Release, s: State, ok: bool, size: nat, cleared: bool)
    requires Genuine(env, r) && Honest(env, r, s) && s.pc.Updating? && (ok ==> size == |r.image|)
    ensures Honest(env, r, AfterBegin(s, ok, size, cleared))
  {
    hide SameHex;
  }

  lemma PrefixShrinks(r: Release, bytes: string, n: nat, m: nat)
    requires Prefix(r, bytes, n) && m <= n
    ensures Prefix(r, bytes, m)
  {
    assert bytes[..m] == bytes[..n][..m] && r.image[..m] == r.image[..n][..m];
  }

  // Writing one key never makes the record name more than what has arrived.
  lemma KeyIsSafe(r: Release, s: State, ok: bool)
    requires s.pc.Saving? && s.pc.m == r.m && RecordOurs(r, s) && ResumeLen(s.record, r.m) <= s.pc.got
    ensures var t := AfterSaveKey(s, ok); RecordOurs(r, t) && ResumeLen(t.record, r.m) <= s.pc.got
  {
  }

  lemma SaveIsHonest(env: Env, r: Release, s: State, ok: bool)
    requires Genuine(env, r) && Honest(env, r, s) && s.pc.Saving?
    ensures Honest(env, r, AfterSaveKey(s, ok))
  {
    KeyIsSafe(r, s, ok);
    var t := AfterSaveKey(s, ok);
    PrefixShrinks(r, s.slots[Passive(s)].bytes, s.pc.got, ResumeLen(t.record, r.m));
    hide RecordOurs, ResumeLen, Prefix;
    assert t.slots == s.slots && t.running == s.running;
  }

  lemma VerifyIsHonest(env: Env, r: Release, s: State, readable: bool, cleared: bool)
    requires Genuine(env, r) && Honest(env, r, s) && s.pc.Verifying?
    ensures Honest(env, r, AfterVerify(env, s, readable, cleared))
  {
    hide SameHex, HashOk;
  }

  lemma FinishIsHonest(env: Env, r: Release, s: State, ok: bool)
    requires Genuine(env, r) && Honest(env, r, s) && s.pc.Finishing?
    ensures Honest(env, r, AfterFinish(s, ok))
  {
    hide SameHex, HashOk;
  }

  lemma BootIsHonest(env: Env, r: Release, s: State)
    requires Genuine(env, r) && Safe(env, s) && Honest(env, r, s)
    ensures Honest(env, r, Booted(s))
  {
    hide SameHex, HashOk;
    WholeImageIsHonest(r, s.record);
  }

  lemma MarkersDoNotMatter(env: Env, r: Release, s: State, marker: Keys, detected: Option<Evidence>)
    requires Honest(env, r, s)
    ensures Honest(env, r, s.(marker := marker, detected := detected))
  {
    hide Prefix, ResumeLen, Matches;
  }

  lemma ResetIsHonest(env: Env, r: Release, s: State, clears: bool)
    requires Genuine(env, r) && Safe(env, s) && Honest(env, r, s)
    ensures Shaped(Booted(s)) && Honest(env, r, Started(env, Booted(s), clears))
  {
    BootIsHonest(env, r, s);
    var t := Booted(s);
    assert Shaped(t);
    MarkersDoNotMatter(env, r, t, Started(env, t, clears).marker, Started(env, t, clears).detected);
    hide Honest, Safe;
  }

  lemma OtherIsHonest(env: Env, r: Release, s: State, step: Step)
    requires Genuine(env, r) && Safe(env, s) && Honest(env, r, s) && Enabled(s, step) && Serves(r, s, step)
    requires !step.Begin? && !step.Receive? && !step.SaveKey? && !step.Verify? && !step.Finish? && !step.Reset?
    requires !step.GiveUp? && !step.SaveAttempt?
    ensures Honest(env, r, After(env, s, step))
  {
    hide HashOk, AfterBegin, AfterReceive, AfterSaveKey, AfterVerify, AfterFinish, AfterSaveAttempt, Booted;
    hide Matches, Started;
    WholeImageIsHonest(r, s.record);
  }

  lemma GiveUpIsHonest(env: Env, r: Release, s: State, recorded: SlotState, clears: bool)
    requires Genuine(env, r) && Honest(env, r, s) && Enabled(s, GiveUp(recorded, clears))
    ensures Honest(env, r, After(env, s, GiveUp(recorded, clears)))
  {
    hide Matches;
    WholeImageIsHonest(r, s.record);
  }

  lemma SaveAttemptIsHonest(env: Env, r: Release, s: State, ok: bool)
    requires Genuine(env, r) && Honest(env, r, s) && s.pc.Attempting?
    ensures Honest(env, r, AfterSaveAttempt(env, s, ok))
  {
    hide Matches;
    WholeImageIsHonest(r, s.record);
  }

  lemma StepIsHonest(env: Env, r: Release, s: State, step: Step)
    requires Genuine(env, r) && Safe(env, s) && Honest(env, r, s) && Enabled(s, step) && Serves(r, s, step)
    ensures Honest(env, r, After(env, s, step))
  {
    hide Honest, Safe, Genuine, AfterBegin, AfterReceive, AfterSaveKey, AfterVerify, AfterFinish, AfterSaveAttempt;
    hide Booted, Started;
    match step {
      case Begin(ok, size, cleared) => BeginIsHonest(env, r, s, ok, size, cleared);
      case Receive(chunk) => ReceiveIsHonest(env, r, s, chunk);
      case SaveKey(ok) => SaveIsHonest(env, r, s, ok);
      case Verify(readable, cleared) => VerifyIsHonest(env, r, s, readable, cleared);
      case Finish(ok) => FinishIsHonest(env, r, s, ok);
      case GiveUp(recorded, clears) => GiveUpIsHonest(env, r, s, recorded, clears);
      case SaveAttempt(ok) => SaveAttemptIsHonest(env, r, s, ok);
      case Reset(clears) => ResetIsHonest(env, r, s, clears);
      case _ => OtherIsHonest(env, r, s, step);
    }
  }

  lemma {:induction false} RunIsHonest(env: Env, r: Release, s: State, steps: seq<Step>)
    requires Genuine(env, r) && Safe(env, s) && Honest(env, r, s) && Run(env, s, steps) && ServedRun(env, r, s, steps)
    ensures Honest(env, r, Final(env, s, steps))
    decreases |steps|
  {
    hide Safe, Honest, After, Enabled, Genuine, Serves;
    if steps != [] {
      StepIsSafe(env, s, steps[0]);
      StepIsHonest(env, r, s, steps[0]);
      RunIsHonest(env, r, After(env, s, steps[0]), steps[1..]);
    }
  }

  // Unless the release itself runs, the record names a length whose slot prefix is the image's prefix.
  predicate Trustworthy(env: Env, r: Release, s: State) {
    Shaped(s) && (env.version(s.slots[s.running].bytes) != r.m.version ==> RecordHonest(r, s))
  }

  ghost predicate AlwaysTrustworthy(env: Env, r: Release, s: State) {
    forall steps :: Run(env, s, steps) && ServedRun(env, r, s, steps) ==> Trustworthy(env, r, Final(env, s, steps))
  }

  // --- When the release is not wanted, nothing happens ---

  predicate Resting(env: Env, r: Release, s: State) {
    Fresh(env, s) && !WantsUpdate(env, s, r.m)
  }

  lemma {:induction false} UnwantedChangesNothing(env: Env, r: Release, s: State, steps: seq<Step>)
    requires Resting(env, r, s) && Run(env, s, steps) && ServedRun(env, r, s, steps)
    ensures var t := Final(env, s, steps);
            Shaped(t) && t.slots == s.slots && t.running == s.running && t.record == s.record
    decreases |steps|
  {
    hide HashOk;
    if steps != [] {
      UnwantedChangesNothing(env, r, After(env, s, steps[0]), steps[1..]);
    }
  }

  // --- A record half overwritten ---

  /** The record's keys are not written together. Where power is lost after the names and before the length, the record
      names more than has arrived exactly when it still held a longer length that a resume would use. */
  lemma MixedRecordMisleads(env: Env, s: State, clears: bool)
    requires Safe(env, s) && s.pc.Saving? && s.pc.stage == 0
    ensures var a := After(env, s, SaveKey(true));
            var b := After(env, a, SaveKey(true));
            var c := After(env, b, Reset(clears));
            var before := s.record.len;
            ResumeLen(c.record, s.pc.m) > s.pc.got <==> before.Some? && s.pc.got < before.value < s.pc.m.size
  {
    hide HashOk;
  }

  predicate ServedTo(env: Env, r: Release, s: State, steps: seq<Step>, t: State) {
    Reaches(env, s, steps, t) && ServedRun(env, r, s, steps)
  }

  lemma {:induction false} OneServedMore(env: Env, r: Release, s: State, steps: seq<Step>, t: State, step: Step)
    requires ServedTo(env, r, s, steps, t) && Enabled(t, step) && Serves(r, t, step)
    ensures Shaped(t) && ServedTo(env, r, s, steps + [step], After(env, t, step))
    decreases |steps|
  {
    hide After, Enabled, Serves;
    OneStepMore(env, s, steps, t, step);
    if steps == [] {
      assert t == s && (steps + [step])[0] == step && (steps + [step])[1..] == [];
      var none: seq<Step> := [];
      assert ServedRun(env, r, After(env, s, step), none);
    } else {
      assert (steps + [step])[1..] == steps[1..] + [step];
      OneServedMore(env, r, After(env, s, steps[0]), steps[1..], t, step);
    }
  }

  // The first byte of the image has arrived when the connection breaks, and the position is about to be saved.
  lemma BreaksAfterOneByte(env: Env, r: Release, s: State) returns (steps: seq<Step>, t: State)
    requires Genuine(env, r) && r.m.size > 1 && Fresh(env, s) && WantsUpdate(env, s, r.m) && !Matches(s.record, r.m)
    ensures ServedTo(env, r, s, steps, t)
    ensures t.record == s.record && t.pc == Saving(r.m, 0, 1, 0, false) && Shaped(t) && t.running == s.running
    ensures t.slots[Passive(t)].bytes == r.image[..1] && t.slots[t.running] == s.slots[s.running]
  {
    steps, t := [], s;
    assert ServedTo(env, r, s, steps, t);
    hide ServedTo, HashOk, Matches;
    OneServedMore(env, r, s, steps, t, Check(r.m));
    steps, t := steps + [Check(r.m)], After(env, t, Check(r.m));
    var begin := Begin(true, |r.image|, false);
    OneServedMore(env, r, s, steps, t, begin);
    steps, t := steps + [begin], After(env, t, begin);
    assert t.pc == Downloading(r.m, 0, 0, 0) && t.slots[Passive(t)].bytes == "";
    var receive := Receive(r.image[..1]);
    OneServedMore(env, r, s, steps, t, receive);
    steps, t := steps + [receive], After(env, t, receive);
    assert t.pc == Downloading(r.m, 0, 1, 0) && t.slots[Passive(t)].bytes == r.image[..1];
    OneServedMore(env, r, s, steps, t, Step.Break);
    steps, t := steps + [Step.Break], After(env, t, Step.Break);
  }

  lemma MixedRecordIsReached(env: Env, r: Release, s: State) returns (steps: seq<Step>)
    requires Genuine(env, r) && Fresh(env, s) && WantsUpdate(env, s, r.m) && !Harmless(r, s.record)
    ensures Run(env, s, steps) && ServedRun(env, r, s, steps) && !Trustworthy(env, r, Final(env, s, steps))
  {
    var t;
    steps, t := BreaksAfterOneByte(env, r, s);
    hide ServedTo, Matches;
    OneServedMore(env, r, s, steps, t, SaveKey(true));
    steps, t := steps + [SaveKey(true)], After(env, t, SaveKey(true));
    OneServedMore(env, r, s, steps, t, SaveKey(true));
    steps, t := steps + [SaveKey(true)], After(env, t, SaveKey(true));
    ServedMeans(env, r, s, steps, t);
    NamesMore(r, t);
  }

  lemma ServedMeans(env: Env, r: Release, s: State, steps: seq<Step>, t: State)
    requires ServedTo(env, r, s, steps, t)
    ensures Run(env, s, steps) && ServedRun(env, r, s, steps) && Final(env, s, steps) == t
  {
  }

  lemma NamesMore(r: Release, t: State)
    requires Shaped(t) && |t.slots[Passive(t)].bytes| == 1
    requires t.record.version == Some(r.m.version) && t.record.sha == Some(r.m.sha)
    requires t.record.len.Some? && 1 < t.record.len.value < r.m.size
    ensures !RecordHonest(r, t)
  {
  }

  /** With one release on offer the record can be trusted at every moment, also right after any power cut, if and only
      if it could at the start and, in case the release will be fetched, held no other release's length that matters:
      more than one byte and less than the image. */
  lemma ResumeRecordIsHonest(env: Env, r: Release, s: State)
    requires Genuine(env, r) && Fresh(env, s) && r.m.size > 0
    ensures AlwaysTrustworthy(env, r, s)
            <==> Trustworthy(env, r, s) && (WantsUpdate(env, s, r.m) ==> Harmless(r, s.record))
  {
    var none: seq<Step> := [];
    assert Run(env, s, none) && ServedRun(env, r, s, none) && Final(env, s, none) == s;
    if AlwaysTrustworthy(env, r, s) && WantsUpdate(env, s, r.m) && !Harmless(r, s.record) {
      var steps := MixedRecordIsReached(env, r, s);
    }
    if Trustworthy(env, r, s) && (WantsUpdate(env, s, r.m) ==> Harmless(r, s.record)) {
      forall steps | Run(env, s, steps) && ServedRun(env, r, s, steps)
        ensures Trustworthy(env, r, Final(env, s, steps))
      {
        StaysTrustworthy(env, r, s, steps);
      }
    }
  }

  lemma StaysTrustworthy(env: Env, r: Release, s: State, steps: seq<Step>)
    requires Genuine(env, r) && Fresh(env, s) && Trustworthy(env, r, s)
    requires WantsUpdate(env, s, r.m) ==> Harmless(r, s.record)
    requires Run(env, s, steps) && ServedRun(env, r, s, steps)
    ensures Trustworthy(env, r, Final(env, s, steps))
  {
    if WantsUpdate(env, s, r.m) {
      RunIsHonest(env, r, s, steps);
    } else {
      UnwantedChangesNothing(env, r, s, steps);
    }
  }
}
