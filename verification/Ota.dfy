/** Firmware updates across reboots: two slots, a bootloader that reverts an unconfirmed image, a download that resumes
    after resets, and a power cut possible between any two steps. */
module Ota {
  import opened Ascii
  import opened AttemptMarker
  import opened Options

  const DOWNLOAD_ATTEMPTS: nat := 4
  const RESUME_SAVE_INTERVAL: nat := 128 * 1024

  // The bootloader's record of a slot.
  datatype SlotState = Undefined | New | Pending | Valid | Invalid | Aborted

  datatype Manifest = Manifest(version: string, sha: string, size: nat)

  // What a slot holds, and the manifest it was last made bootable for.
  datatype Slot = Slot(bytes: string, state: SlotState, verified: Manifest)

  // Download-resume state: three keys, each written atomically.
  datatype Record = Record(version: Option<string>, sha: Option<string>, len: Option<nat>)

  const NO_RECORD := Record(None, None, None)

  // SHA-256 in hex, and the version an image carries in its header.
  datatype Env = Env(sha: string -> string, version: string -> string)

  // Where the OTA task is.
  datatype Pc =
    | SelfTest
    | Idle
    | Updating(m: Manifest, tries: nat)
    | Downloading(m: Manifest, tries: nat, got: nat, saved: nat)
    | Saving(m: Manifest, tries: nat, got: nat, stage: nat, more: bool)
    | Verifying(m: Manifest, tries: nat)
    | Finishing(m: Manifest, tries: nat)
    | Finished(m: Manifest)
    | Attempting(m: Manifest, half: bool)
    | Restarting

  // `marker` is the attempt marker in NVS, `detected` the rollback that this boot found in it. `source` is what the
  // running slot held when the last image was made bootable.
  datatype State = State(slots: seq<Slot>, boot: nat, running: nat, record: Record, pc: Pc,
                         marker: Keys, detected: Option<Evidence>, source: string)

  datatype Step =
    | Check(m: Manifest)
    | Begin(ok: bool, size: nat, cleared: bool)
    | Abandon
    | Receive(chunk: string)
    | SaveKey(ok: bool)
    | Break
    | Complete
    | Verify(readable: bool, cleared: bool)
    | Finish(ok: bool)
    | ClearRecord(cleared: bool)
    | SaveAttempt(ok: bool)
    | Confirm(clears: bool)
    | GiveUp(recorded: SlotState, clears: bool)
    | Acknowledge(clears: bool)
    | Reset(clears: bool)

  // --- Flash, hashes and the resume record ---

  const ERASED: char := 255 as char

  // The first n bytes of a slot; what was never written reads as erased.
  function ReadBack(bytes: string, n: nat): (r: string)
    ensures |r| == n
  {
    if n <= |bytes| then bytes[..n] else bytes + seq(n - |bytes|, _ => ERASED)
  }

  // Writing a chunk; the flash after it counts as erased.
  function Write(bytes: string, at: nat, chunk: string): string {
    ReadBack(bytes, at) + chunk
  }

  predicate SameHex(a: string, b: string) {
    Lower(a) == Lower(b)
  }

  predicate Matches(r: Record, m: Manifest) {
    r.version == Some(m.version) && r.sha.Some? && SameHex(r.sha.value, m.sha)
  }

  // How many bytes a resumed download may skip.
  function ResumeLen(r: Record, m: Manifest): nat {
    if r.len.Some? && Matches(r, m) && r.len.value < m.size then r.len.value else 0
  }

  predicate HashOk(env: Env, bytes: string, m: Manifest) {
    SameHex(env.sha(ReadBack(bytes, m.size)), m.sha)
  }

  // --- Steps ---

  function Passive(s: State): nat {
    if s.running == 0 then 1 else 0
  }

  predicate Shaped(s: State) {
    |s.slots| == 2 && s.boot < 2 && s.running < 2
  }

  function Put(s: State, i: nat, slot: Slot): State
    requires Shaped(s) && i < 2
  {
    s.(slots := s.slots[i := slot])
  }

  function Retry(m: Manifest, tries: nat): Pc {
    if tries + 1 < DOWNLOAD_ATTEMPTS then Updating(m, tries + 1) else Idle
  }

  function Cleared(s: State, cleared: bool): State {
    if cleared then s.(record := NO_RECORD) else s
  }

  // The bootloader: a new image runs once unconfirmed; still unconfirmed at the next boot, it is aborted and the other
  // slot runs. A slot that was flashed over the cable has no state yet, and runs like a confirmed one.
  function Booted(s: State): State
    requires Shaped(s)
  {
    var slot := s.slots[s.boot];
    var other := 1 - s.boot;
    match slot.state
    case New => Put(s, s.boot, slot.(state := Pending)).(running := s.boot, pc := SelfTest)
    case Pending => Put(s, s.boot, slot.(state := Aborted)).(boot := other, running := other, pc := Idle)
    case Valid | Undefined => s.(running := s.boot, pc := Idle)
    case _ => s.(boot := other, running := other, pc := Idle)
  }

  // The firmware's own start: is the marker that of a trial, of a reverted one, or stale?
  function Started(env: Env, s: State, clears: bool): State
    requires Shaped(s)
  {
    var version, pending := env.version(s.slots[s.running].bytes), s.slots[s.running].state == Pending;
    s.(marker := KeptByBoot(s.marker, version, pending, clears), detected := Detected(s.marker, version, pending))
  }

  predicate RolledBack(env: Env, s: State, m: Manifest)
    requires Shaped(s)
  {
    var passive := s.slots[Passive(s)];
    passive.state == Aborted && env.version(passive.bytes) == m.version
  }

  predicate WantsUpdate(env: Env, s: State, m: Manifest)
    requires Shaped(s)
  {
    && m.version != env.version(s.slots[s.running].bytes)
    && !RolledBack(env, s, m)
    && s.slots[s.running].state != Pending
  }

  predicate Enabled(s: State, step: Step) {
    match step
    case Check(m) => s.pc.Idle? && m.size > 0
    case Begin(_, _, _) => s.pc.Updating?
    case Abandon => s.pc.Updating? && s.pc.tries > 0
    case Receive(_) => s.pc.Downloading?
    case SaveKey(_) => s.pc.Saving?
    case Break => s.pc.Downloading?
    case Complete => s.pc.Downloading?
    case Verify(_, _) => s.pc.Verifying?
    case Finish(_) => s.pc.Finishing?
    case ClearRecord(_) => s.pc.Finished?
    case SaveAttempt(_) => s.pc.Attempting?
    case Confirm(_) => s.pc.SelfTest?
    case GiveUp(recorded, _) => s.pc.SelfTest? && (recorded == Invalid || recorded == Aborted)
    case Acknowledge(_) => s.detected.Some?
    case Reset(_) => true
  }

  function AfterBegin(s: State, ok: bool, size: nat, cleared: bool): State
    requires Shaped(s) && s.pc.Updating?
  {
    var m, tries := s.pc.m, s.pc.tries;
    if !ok then s.(pc := Retry(m, tries))
    else if size != m.size then Cleared(s, cleared).(pc := Retry(m, tries))
    else
      var got := ResumeLen(s.record, m);
      var slot := s.slots[Passive(s)];
      var t := if got == 0 then Put(s, Passive(s), slot.(bytes := "")) else s;
      t.(pc := Downloading(m, tries, got, got))
  }

  function AfterReceive(s: State, chunk: string): State
    requires Shaped(s) && s.pc.Downloading?
  {
    var slot := s.slots[Passive(s)];
    var got := s.pc.got + |chunk|;
    Put(s, Passive(s), slot.(bytes := Write(slot.bytes, s.pc.got, chunk))).(
      pc := if got - s.pc.saved >= RESUME_SAVE_INTERVAL then Saving(s.pc.m, s.pc.tries, got, 0, true)
            else Downloading(s.pc.m, s.pc.tries, got, s.pc.saved))
  }

  function Saved(pc: Pc): Pc
    requires pc.Saving?
  {
    if pc.more then Downloading(pc.m, pc.tries, pc.got, pc.got) else Retry(pc.m, pc.tries)
  }

  function AfterSaveKey(s: State, ok: bool): State
    requires s.pc.Saving?
  {
    var m := s.pc.m;
    if !ok then s.(pc := Saved(s.pc))
    else if s.pc.stage == 0 then s.(record := s.record.(version := Some(m.version)), pc := s.pc.(stage := 1))
    else if s.pc.stage == 1 then s.(record := s.record.(sha := Some(m.sha)), pc := s.pc.(stage := 2))
    else s.(record := s.record.(len := Some(s.pc.got)), pc := Saved(s.pc))
  }

  function AfterVerify(env: Env, s: State, readable: bool, cleared: bool): State
    requires Shaped(s) && s.pc.Verifying?
  {
    if !readable then s.(pc := Retry(s.pc.m, s.pc.tries))
    else if !HashOk(env, s.slots[Passive(s)].bytes, s.pc.m) then Cleared(s, cleared).(pc := Retry(s.pc.m, s.pc.tries))
    else s.(pc := Finishing(s.pc.m, s.pc.tries))
  }

  function AfterFinish(s: State, ok: bool): State
    requires Shaped(s) && s.pc.Finishing?
  {
    if !ok then s.(pc := Retry(s.pc.m, s.pc.tries))
    else
      Put(s, Passive(s), s.slots[Passive(s)].(state := New, verified := s.pc.m)).(
        boot := Passive(s), source := s.slots[s.running].bytes, pc := Finished(s.pc.m))
  }

  // The marker's two keys, one after the other. Without them an installed image is not restarted into: the running slot
  // is the boot choice again.
  function AfterSaveAttempt(env: Env, s: State, ok: bool): State
    requires Shaped(s) && s.pc.Attempting?
  {
    if !ok then s.(boot := s.running, pc := Idle)
    else if !s.pc.half then
      s.(marker := s.marker.(source := Some(env.version(s.slots[s.running].bytes))), pc := Attempting(s.pc.m, true))
    else s.(marker := s.marker.(target := Some(s.pc.m.version)), pc := Restarting)
  }

  function After(env: Env, s: State, step: Step): State
    requires Shaped(s) && Enabled(s, step)
  {
    match step
    case Check(m) => if WantsUpdate(env, s, m) then s.(pc := Updating(m, 0)) else s
    case Begin(ok, size, cleared) => AfterBegin(s, ok, size, cleared)
    case Abandon => s.(pc := Idle)
    case Receive(chunk) => AfterReceive(s, chunk)
    case SaveKey(ok) => AfterSaveKey(s, ok)
    case Break =>
      s.(pc := if s.pc.got > 0 then Saving(s.pc.m, s.pc.tries, s.pc.got, 0, false) else Retry(s.pc.m, s.pc.tries))
    case Complete => s.(pc := Verifying(s.pc.m, s.pc.tries))
    case Verify(readable, cleared) => AfterVerify(env, s, readable, cleared)
    case Finish(ok) => AfterFinish(s, ok)
    case ClearRecord(cleared) => Cleared(s, cleared).(pc := Attempting(s.pc.m, false))
    case SaveAttempt(ok) => AfterSaveAttempt(env, s, ok)
    case Confirm(clears) =>
      Put(s, s.running, s.slots[s.running].(state := Valid)).(marker := Erased(s.marker, clears), pc := Idle)
    case GiveUp(recorded, clears) =>
      Started(env, Put(s, s.running, s.slots[s.running].(state := recorded)).(
                boot := Passive(s), running := Passive(s), pc := Idle), clears)
    case Acknowledge(clears) => if clears then s.(marker := NO_KEYS, detected := None) else s
    case Reset(clears) => Started(env, Booted(s), clears)
  }

  predicate Run(env: Env, s: State, steps: seq<Step>)
    decreases |steps|
  {
    Shaped(s) &&
    (steps == [] || (Enabled(s, steps[0]) && Run(env, After(env, s, steps[0]), steps[1..])))
  }

  function Final(env: Env, s: State, steps: seq<Step>): State
    requires Run(env, s, steps)
    decreases |steps|
  {
    if steps == [] then s else Final(env, After(env, s, steps[0]), steps[1..])
  }

  lemma StaysShaped(env: Env, s: State, step: Step)
    requires Shaped(s) && Enabled(s, step)
    ensures Shaped(After(env, s, step))
  {
    hide HashOk, Write, ResumeLen, ReadBack, KeptByBoot, Detected, RolledBack, Retry, Saved;
    match step {
      case Reset(_) => hide AfterBegin, AfterReceive, AfterSaveKey, AfterVerify, AfterFinish, AfterSaveAttempt;
      case _ => hide Booted;
    }
  }

  predicate Reaches(env: Env, s: State, steps: seq<Step>, t: State) {
    Run(env, s, steps) && Final(env, s, steps) == t
  }

  lemma {:induction false} OneStepMore(env: Env, s: State, steps: seq<Step>, t: State, step: Step)
    requires Reaches(env, s, steps, t) && Enabled(t, step)
    ensures Shaped(t) && Reaches(env, s, steps + [step], After(env, t, step))
    decreases |steps|
  {
    hide After, Enabled;
    if steps == [] {
      StaysShaped(env, s, step);
      assert (steps + [step])[1..] == [];
      assert Final(env, After(env, s, step), []) == After(env, s, step);
    } else {
      assert (steps + [step])[1..] == steps[1..] + [step];
      OneStepMore(env, After(env, s, steps[0]), steps[1..], t, step);
    }
  }
}
