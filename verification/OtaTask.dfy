/** The updater's own code, run without interruption: its methods take exactly the steps of the model. */
module OtaTask {
  import opened AttemptMarker
  import opened Options
  import opened Ota

  // Whether each of the three keys of a resume record gets written.
  datatype KeyWrites = KeyWrites(version: bool, sha: bool, len: bool)

  // How the network, the flash and NVS behave during one download attempt.
  datatype Attempt = Attempt(begins: bool, size: nat, chunks: seq<string>, saves: nat -> KeyWrites, complete: bool,
                             readFailsAt: Option<nat>, finishes: bool, clears: bool)

  function Kept(r: Record, m: Manifest, len: nat, k: KeyWrites): Record {
    if !k.version then r
    else
      var r := r.(version := Some(m.version));
      if !k.sha then r
      else
        var r := r.(sha := Some(m.sha));
        if !k.len then r else r.(len := Some(len))
  }

  // Saving a record is up to three steps.
  lemma SaveSteps(env: Env, s: State, steps: seq<Step>, t: State, k: KeyWrites) returns (steps': seq<Step>)
    requires Reaches(env, s, steps, t) && t.pc.Saving? && t.pc.stage == 0
    ensures steps <= steps'
    ensures Reaches(env, s, steps', t.(record := Kept(t.record, t.pc.m, t.pc.got, k), pc := Saved(t.pc)))
  {
    hide Reaches;
    OneStepMore(env, s, steps, t, SaveKey(k.version));
    steps' := steps + [SaveKey(k.version)];
    if k.version {
      var t := After(env, t, SaveKey(true));
      OneStepMore(env, s, steps', t, SaveKey(k.sha));
      steps' := steps' + [SaveKey(k.sha)];
      if k.sha {
        var t := After(env, t, SaveKey(true));
        OneStepMore(env, s, steps', t, SaveKey(k.len));
        steps' := steps' + [SaveKey(k.len)];
      }
    }
  }

  // So is saving the attempt marker, up to two.
  lemma SaveAttemptSteps(env: Env, s: State, steps: seq<Step>, t: State, saved: SaveResult) returns (steps': seq<Step>)
    requires Reaches(env, s, steps, t) && Shaped(t) && t.pc.Attempting? && !t.pc.half
    ensures steps <= steps'
    ensures var u := t.(marker := MarkerSaved(t.marker, env.version(t.slots[t.running].bytes), t.pc.m.version, saved));
            Reaches(env, s, steps', if saved.Both? then u.(pc := Restarting) else u.(boot := t.running, pc := Idle))
  {
    hide Reaches;
    OneStepMore(env, s, steps, t, SaveAttempt(!saved.Neither?));
    steps' := steps + [SaveAttempt(!saved.Neither?)];
    if !saved.Neither? {
      var t := After(env, t, SaveAttempt(true));
      OneStepMore(env, s, steps', t, SaveAttempt(saved.Both?));
      steps' := steps' + [SaveAttempt(saved.Both?)];
    }
  }

  lemma ReadBackGrows(bytes: string, off: nat, chunk: nat)
    ensures ReadBack(bytes, off) + ReadBack(bytes, off + chunk)[off..] == ReadBack(bytes, off + chunk)
  {
  }

  function Joined(chunks: seq<string>): string {
    if chunks == [] then "" else Joined(chunks[..|chunks| - 1]) + chunks[|chunks| - 1]
  }

  // A slot after some chunks arrived from position `from` on.
  function Received(bytes: string, from: nat, chunks: seq<string>): string {
    if chunks == [] then bytes else ReadBack(bytes, from) + Joined(chunks)
  }

  lemma NothingReceived(bytes: string, from: nat, chunks: seq<string>)
    ensures Received(bytes, from, chunks[..0]) == bytes && Joined(chunks[..0]) == ""
  {
  }

  lemma ReceivesMore(bytes: string, from: nat, chunks: seq<string>, i: nat)
    requires i < |chunks|
    ensures Joined(chunks[..i + 1]) == Joined(chunks[..i]) + chunks[i]
    ensures Received(bytes, from, chunks[..i + 1])
            == Write(Received(bytes, from, chunks[..i]), from + |Joined(chunks[..i])|, chunks[i])
  {
    JoinedMore(chunks, i);
    hide Joined;
    var sent := Joined(chunks[..i]);
    if i > 0 {
      WriteBehind(ReadBack(bytes, from), sent, chunks[i]);
    } else {
      assert sent == "" && "" + chunks[0] == chunks[0] by { NoChunks(chunks); }
    }
  }

  lemma NoChunks(chunks: seq<string>)
    ensures Joined(chunks[..0]) == ""
  {
  }

  lemma JoinedMore(chunks: seq<string>, i: nat)
    requires i < |chunks|
    ensures Joined(chunks[..i + 1]) == Joined(chunks[..i]) + chunks[i]
  {
    assert chunks[..i + 1][..i] == chunks[..i];
  }

  lemma WriteBehind(kept: string, sent: string, chunk: string)
    ensures Write(kept + sent, |kept| + |sent|, chunk) == kept + (sent + chunk)
  {
    assert (kept + sent)[..|kept| + |sent|] == kept + sent;
  }

  // The passive slot once an attempt that may resume at `from` has received everything.
  function Fetched(bytes: string, from: nat, a: Attempt): string {
    Received(if from == 0 then "" else bytes, from, a.chunks)
  }

  // An attempt succeeds on these conditions and no others.
  predicate Succeeds(env: Env, m: Manifest, bytes: string, a: Attempt) {
    && a.begins && a.size == m.size && a.complete
    && ReadsThrough(a.readFailsAt, m.size) && HashOk(env, bytes, m) && a.finishes
  }

  const BUFFER: nat := 4096

  // Whether the first `len` bytes can be read at all.
  predicate ReadsThrough(failsAt: Option<nat>, len: nat) {
    failsAt.Some? ==> failsAt.value >= len
  }

  // --- What attempts leave behind ---

  // What one attempt finds: the passive slot's bytes and the resume record.
  datatype Flash = Flash(bytes: string, record: Record)

  // The record and the position last saved once i chunks have arrived.
  datatype Saves = Saves(record: Record, saved: nat)

  function SavedAlong(record: Record, m: Manifest, from: nat, a: Attempt, i: nat): Saves
    requires i <= |a.chunks|
  {
    if i == 0 then Saves(record, from)
    else
      var before := SavedAlong(record, m, from, a, i - 1);
      var got := from + |Joined(a.chunks[..i])|;
      if got - before.saved >= RESUME_SAVE_INTERVAL then Saves(Kept(before.record, m, got, a.saves(i - 1)), got)
      else before
  }

  // The record at the end of a transfer; a broken one saves its position once more.
  function RecordLeft(record: Record, m: Manifest, from: nat, a: Attempt): Record {
    var along := SavedAlong(record, m, from, a, |a.chunks|).record;
    var got := from + |Joined(a.chunks)|;
    if !a.complete && got > 0 then Kept(along, m, got, a.saves(|a.chunks|)) else along
  }

  function Forgotten(record: Record, clears: bool): Record {
    if clears then NO_RECORD else record
  }

  // What a failed attempt leaves: nothing is kept of an image that is not the manifest's.
  function Left(env: Env, m: Manifest, f: Flash, a: Attempt): Flash {
    if !a.begins then f
    else if a.size != m.size then f.(record := Forgotten(f.record, a.clears))
    else
      var from := ResumeLen(f.record, m);
      var bytes, record := Fetched(f.bytes, from, a), RecordLeft(f.record, m, from, a);
      Flash(bytes, if a.complete && ReadsThrough(a.readFailsAt, m.size) && !HashOk(env, bytes, m)
                   then Forgotten(record, a.clears) else record)
  }

  // What attempt i of an update finds, the ones before it having failed.
  function LeftBy(env: Env, m: Manifest, f: Flash, attempts: nat -> Attempt, i: nat): Flash {
    if i == 0 then f else Left(env, m, LeftBy(env, m, f, attempts, i - 1), attempts(i - 1))
  }

  // The bytes attempt i ends up with.
  function FetchedBy(env: Env, m: Manifest, f: Flash, attempts: nat -> Attempt, i: nat): string {
    var found := LeftBy(env, m, f, attempts, i);
    Fetched(found.bytes, ResumeLen(found.record, m), attempts(i))
  }

  predicate SucceedsBy(env: Env, m: Manifest, f: Flash, attempts: nat -> Attempt, i: nat) {
    Succeeds(env, m, FetchedBy(env, m, f, attempts, i), attempts(i))
  }

  // Attempt i is the first to succeed, and the link came back before each attempt but the first.
  predicate InstalledBy(env: Env, m: Manifest, f: Flash, attempts: nat -> Attempt, recovers: nat -> bool, i: nat) {
    && SucceedsBy(env, m, f, attempts, i)
    && (forall j :: 0 <= j < i ==> !SucceedsBy(env, m, f, attempts, j))
    && (forall j :: 1 <= j <= i ==> recovers(j))
  }

  // Up to four attempts bring the image into the slot and make it bootable.
  predicate Updates(env: Env, m: Manifest, f: Flash, attempts: nat -> Attempt, recovers: nat -> bool) {
    exists i :: 0 <= i < 4 && InstalledBy(env, m, f, attempts, recovers, i)
  }

  lemma GivesUp(env: Env, s: State, steps: seq<Step>, t: State)
    requires Reaches(env, s, steps, t) && t.pc.Updating? && t.pc.tries > 0
    ensures Reaches(env, s, steps + [Abandon], t.(pc := Idle))
  {
    OneStepMore(env, s, steps, t, Abandon);
    hide Reaches;
  }

  lemma SucceedsMeans(env: Env, m: Manifest, f: Flash, attempts: nat -> Attempt, i: nat)
    ensures var found := LeftBy(env, m, f, attempts, i);
            var bytes := Fetched(found.bytes, ResumeLen(found.record, m), attempts(i));
            && (SucceedsBy(env, m, f, attempts, i) <==> Succeeds(env, m, bytes, attempts(i)))
            && (Succeeds(env, m, bytes, attempts(i)) ==> HashOk(env, bytes, m))
  {
    hide HashOk;
  }

  lemma NotInstalled(env: Env, m: Manifest, f: Flash, attempts: nat -> Attempt, recovers: nat -> bool, tries: nat)
    requires forall j :: 0 <= j < tries ==> !SucceedsBy(env, m, f, attempts, j)
    requires tries >= 4 || (tries > 0 && !recovers(tries))
    ensures !Updates(env, m, f, attempts, recovers)
  {
    hide SucceedsBy;
  }

  /** An attempt that shows the server's image to be another one starts the next attempt from scratch. */
  lemma MismatchStartsOver(env: Env, m: Manifest, f: Flash, a: Attempt)
    requires a.begins && a.clears
    requires || a.size != m.size
             || (&& a.complete && ReadsThrough(a.readFailsAt, m.size)
                 && !HashOk(env, Fetched(f.bytes, ResumeLen(f.record, m), a), m))
    ensures ResumeLen(Left(env, m, f, a).record, m) == 0
  {
    hide HashOk, Fetched, RecordLeft;
  }

  /** While keys can be written, a reset during the transfer never loses 128 KB: the record names this release, and a
      position less than that behind what has arrived. */
  lemma {:induction false} SavesKeepUp(record: Record, m: Manifest, from: nat, a: Attempt, i: nat)
    requires i <= |a.chunks| && forall j :: a.saves(j) == KeyWrites(true, true, true)
    ensures var p, got := SavedAlong(record, m, from, a, i), from + |Joined(a.chunks[..i])|;
            && from <= p.saved <= got < p.saved + 131_072
            && p.record == if p.saved == from then record else Record(Some(m.version), Some(m.sha), Some(p.saved))
  {
    NoChunks(a.chunks);
    if i > 0 {
      JoinedMore(a.chunks, i - 1);
      SavesKeepUp(record, m, from, a, i - 1);
    }
    hide Joined;
  }

  /** A broken transfer records exactly where it stopped, unless nothing has arrived at all; a complete one adds
      nothing to what it saved on the way. */
  lemma TransferRecords(record: Record, m: Manifest, from: nat, a: Attempt)
    requires forall j :: a.saves(j) == KeyWrites(true, true, true)
    ensures var left, got := RecordLeft(record, m, from, a), from + |Joined(a.chunks)|;
            if a.complete then left == SavedAlong(record, m, from, a, |a.chunks|).record
            else left == if got == 0 then record else Record(Some(m.version), Some(m.sha), Some(got))
  {
    SavesKeepUp(record, m, from, a, |a.chunks|);
    assert a.chunks[..|a.chunks|] == a.chunks;
    hide Joined, SavedAlong;
  }

  lemma ReadBackOfReceived(bytes: string, from: nat, chunks: seq<string>)
    ensures var n := from + |Joined(chunks)|;
            ReadBack(Received(bytes, from, chunks), n) == ReadBack(bytes, from) + Joined(chunks)
  {
    hide Joined;
    if chunks == [] {
      NoChunks(chunks);
      assert chunks[..0] == chunks;
    }
  }

  /** A broken download goes on where it stopped: the next attempt keeps what has arrived and puts its own chunks behind
      it, so that chunks that are together the image's bytes become the image. */
  lemma BrokenDownloadGoesOn(env: Env, m: Manifest, f: Flash, a: Attempt, b: Attempt)
    requires a.begins && a.size == m.size && !a.complete && a.saves(|a.chunks|) == KeyWrites(true, true, true)
    requires var got := ResumeLen(f.record, m) + |Joined(a.chunks)|; 0 < got < m.size
    ensures var from, left := ResumeLen(f.record, m), Left(env, m, f, a);
            var got, arrived := ResumeLen(left.record, m), ReadBack(f.bytes, from) + Joined(a.chunks);
            && got == |arrived|
            && ReadBack(Fetched(left.bytes, got, b), got + |Joined(b.chunks)|) == arrived + Joined(b.chunks)
  {
    hide HashOk, SavedAlong, Joined;
    var from, left := ResumeLen(f.record, m), Left(env, m, f, a);
    var got := from + |Joined(a.chunks)|;
    assert ResumeLen(left.record, m) == got;
    hide ResumeLen, RecordLeft;
    var base := if from == 0 then "" else f.bytes;
    assert ReadBack(base, from) == ReadBack(f.bytes, from);
    ReadBackOfReceived(base, from, a.chunks);
    ReadBackOfReceived(left.bytes, got, b.chunks);
    hide Received, ReadBack;
  }

  // The hash over what flash holds, read back in chunks; None when a read fails.
  method SlotSha256(env: Env, bytes: string, len: nat, failsAt: Option<nat>) returns (digest: Option<string>)
    ensures digest == if ReadsThrough(failsAt, len) then Some(env.sha(ReadBack(bytes, len))) else None
  {
    var fed := "";
    var off: nat := 0;
    while off < len
      invariant off <= len && fed == ReadBack(bytes, off) && ReadsThrough(failsAt, off)
    {
      var chunk: nat := if len - off < BUFFER then len - off else BUFFER;
      if failsAt.Some? && off <= failsAt.value < off + chunk {
        return None;
      }
      ReadBackGrows(bytes, off, chunk);
      fed := fed + ReadBack(bytes, off + chunk)[off..];
      off := off + chunk;
    }
    digest := Some(env.sha(fed));
  }

  /** The flash, the boot choice and the NVS record that the updater works on. */
  class Updater {
    var slots: seq<Slot>
    var boot: nat
    var running: nat
    var record: Record
    var marker: Keys
    var detected: Option<Evidence>
    ghost var source: string

    ghost function View(pc: Pc): State
      reads this
    {
      State(slots, boot, running, record, pc, marker, detected, source)
    }

    function Other(): nat
      reads this
    {
      if running == 0 then 1 else 0
    }

    ghost predicate Valid()
      reads this
    {
      |slots| == 2 && boot < 2 && running < 2
    }

    // A board as its flash and NVS stand.
    constructor (s: State)
      requires Shaped(s)
      ensures View(s.pc) == s && Valid()
    {
      slots, boot, running, record, source := s.slots, s.boot, s.running, s.record, s.source;
      marker, detected := s.marker, s.detected;
    }

    method ResumeClear(clears: bool)
      modifies `record
      ensures record == if clears then NO_RECORD else old(record)
    {
      if clears {
        record := NO_RECORD;
      }
    }

    method ResumeSave(m: Manifest, len: nat, k: KeyWrites)
      modifies `record
      ensures record == Kept(old(record), m, len, k)
    {
      if !k.version {
        return;
      }
      record := record.(version := Some(m.version));
      if !k.sha {
        return;
      }
      record := record.(sha := Some(m.sha));
      if k.len {
        record := record.(len := Some(len));
      }
    }

    method ResumeLoad(m: Manifest) returns (len: nat)
      ensures len == ResumeLen(record, m)
    {
      len := 0;
      if record.version.Some? && record.sha.Some? && record.len.Some? {
        len := record.len.value;
      }
      if len == 0 || record.version.value != m.version || !SameHex(record.sha.value, m.sha) || len >= m.size {
        len := 0;
      }
    }

    // The transfer loop: each chunk goes to the passive slot, and every 128 KB the position is saved.
    method Download(env: Env, m: Manifest, tries: nat, from: nat, a: Attempt, ghost s: State, ghost before: seq<Step>)
      returns (got: nat, saved: nat, ghost steps: seq<Step>)
      requires Valid() && Reaches(env, s, before, View(Downloading(m, tries, from, from)))
      modifies `slots, `record
      ensures Valid() && before <= steps && Reaches(env, s, steps, View(Downloading(m, tries, got, saved)))
      ensures var was := old(slots)[Other()];
              slots == old(slots)[Other() := was.(bytes := Received(was.bytes, from, a.chunks))]
      ensures got == from + |Joined(a.chunks)|
      ensures Saves(record, saved) == SavedAlong(old(record), m, from, a, |a.chunks|)
    {
      hide Reaches, Write, Kept, Received, Joined;
      got, saved, steps := from, from, before;
      var passive := Other();
      var i: nat := 0;
      NothingReceived(slots[passive].bytes, from, a.chunks);
      while i < |a.chunks|
        invariant i <= |a.chunks|
        invariant got == from + |Joined(a.chunks[..i])|
        invariant var was := old(slots)[passive];
                  slots == old(slots)[passive := was.(bytes := Received(was.bytes, from, a.chunks[..i]))]
        invariant Saves(record, saved) == SavedAlong(old(record), m, from, a, i)
        invariant before <= steps && Reaches(env, s, steps, View(Downloading(m, tries, got, saved)))
      {
        var chunk := a.chunks[i];
        ReceivesMore(old(slots)[passive].bytes, from, a.chunks, i);
        OneStepMore(env, s, steps, View(Downloading(m, tries, got, saved)), Receive(chunk));
        steps := steps + [Receive(chunk)];
        slots := slots[passive := slots[passive].(bytes := Write(slots[passive].bytes, got, chunk))];
        got := got + |chunk|;
        if got - saved >= RESUME_SAVE_INTERVAL {
          assert Reaches(env, s, steps, View(Saving(m, tries, got, 0, true)));
          steps := SaveSteps(env, s, steps, View(Saving(m, tries, got, 0, true)), a.saves(i));
          ResumeSave(m, got, a.saves(i));
          saved := got;
        }
        i := i + 1;
      }
      assert a.chunks[..i] == a.chunks;
    }

    // From a complete transfer to a bootable slot: hash what flash holds, then switch the boot choice.
    method Install(env: Env, m: Manifest, tries: nat, a: Attempt, ghost s: State, ghost before: seq<Step>)
      returns (ok: bool, ghost steps: seq<Step>)
      requires Valid() && Reaches(env, s, before, View(Verifying(m, tries)))
      modifies this
      ensures Valid() && before <= steps
      ensures Reaches(env, s, steps, View(if ok then Attempting(m, false) else Retry(m, tries)))
      ensures running == old(running)
      ensures ok <==> ReadsThrough(a.readFailsAt, m.size) && HashOk(env, old(slots)[Other()].bytes, m) && a.finishes
      ensures if ok then
                boot == Other() && slots == old(slots)[Other() := old(slots)[Other()].(state := New, verified := m)]
              else boot == old(boot) && slots == old(slots)
      ensures !ok ==>
                record == if ReadsThrough(a.readFailsAt, m.size) && !HashOk(env, old(slots)[Other()].bytes, m)
                          then Forgotten(old(record), a.clears) else old(record)
    {
      hide Reaches, ReadBack, SameHex, AfterBegin, AfterReceive, AfterSaveKey, AfterSaveAttempt, Booted, Started;
      var passive := Other();
      ghost var here := View(Verifying(m, tries));
      var digest := SlotSha256(env, slots[passive].bytes, m.size, a.readFailsAt);
      OneStepMore(env, s, before, here, Verify(digest.Some?, a.clears));
      steps := before + [Verify(digest.Some?, a.clears)];
      if digest == None {
        return false, steps;
      }
      if !SameHex(digest.value, m.sha) {
        ResumeClear(a.clears);
        return false, steps;
      }
      OneStepMore(env, s, steps, View(Finishing(m, tries)), Finish(a.finishes));
      steps := steps + [Finish(a.finishes)];
      if !a.finishes {
        return false, steps;
      }
      source := slots[running].bytes;
      slots := slots[passive := slots[passive].(state := New, verified := m)];
      boot := passive;
      OneStepMore(env, s, steps, View(Finished(m)), Step.ClearRecord(a.clears));
      steps := steps + [Step.ClearRecord(a.clears)];
      ResumeClear(a.clears);
      ok := true;
    }

    // From an open connection to the end of the transfer; one that breaks saves its position.
    method Transfer(env: Env, m: Manifest, tries: nat, from: nat, a: Attempt, ghost s: State, ghost before: seq<Step>)
      returns (ghost steps: seq<Step>)
      requires Valid() && Reaches(env, s, before, View(Downloading(m, tries, from, from)))
      modifies `slots, `record
      ensures Valid() && before <= steps
      ensures Reaches(env, s, steps, View(if a.complete then Verifying(m, tries) else Retry(m, tries)))
      ensures var was := old(slots)[Other()];
              slots == old(slots)[Other() := was.(bytes := Received(was.bytes, from, a.chunks))]
      ensures record == RecordLeft(old(record), m, from, a)
    {
      hide Reaches, Kept, Received, Joined, SavedAlong, AfterBegin, AfterReceive, AfterVerify, AfterFinish;
      hide AfterSaveAttempt, Booted, Started;
      var got, saved;
      got, saved, steps := Download(env, m, tries, from, a, s, before);
      if a.complete {
        OneStepMore(env, s, steps, View(Downloading(m, tries, got, saved)), Complete);
        steps := steps + [Complete];
        return;
      }
      OneStepMore(env, s, steps, View(Downloading(m, tries, got, saved)), Step.Break);
      steps := steps + [Step.Break];
      if got > 0 {
        var k := a.saves(|a.chunks|);
        steps := SaveSteps(env, s, steps, View(Saving(m, tries, got, 0, false)), k);
        ResumeSave(m, got, k);
      }
    }

    // One download attempt.
    method AttemptUpdate(env: Env, m: Manifest, tries: nat, a: Attempt, ghost s: State, ghost before: seq<Step>)
      returns (ok: bool, ghost steps: seq<Step>)
      requires Valid() && Reaches(env, s, before, View(Updating(m, tries)))
      modifies this
      ensures Valid() && before < steps
      ensures Reaches(env, s, steps, View(if ok then Attempting(m, false) else Retry(m, tries)))
      ensures running == old(running) && slots[running] == old(slots)[running]
      ensures var bytes := Fetched(old(slots)[Other()].bytes, ResumeLen(old(record), m), a);
              && (ok <==> Succeeds(env, m, bytes, a))
              && (ok ==> boot == Other() && slots[boot] == Slot(bytes, New, m))
      ensures !ok ==> boot == old(boot)
      ensures !ok ==> Flash(slots[Other()].bytes, record)
                      == Left(env, m, Flash(old(slots)[Other()].bytes, old(record)), a)
    {
      hide Reaches, HashOk, Received, RecordLeft, AfterReceive, AfterVerify, AfterFinish, AfterSaveKey;
      hide AfterSaveAttempt, Booted, Started;
      var begin := Begin(a.begins, a.size, a.clears);
      OneStepMore(env, s, before, View(Updating(m, tries)), begin);
      steps := before + [begin];
      if !a.begins {
        return false, steps;
      }
      if a.size != m.size {
        ResumeClear(a.clears);
        return false, steps;
      }
      var from := ResumeLoad(m);
      if from == 0 {
        var passive := Other();
        slots := slots[passive := slots[passive].(bytes := "")];
      }
      steps := Transfer(env, m, tries, from, a, s, steps);
      if !a.complete {
        return false, steps;
      }
      ok, steps := Install(env, m, tries, a, s, steps);
    }

    // The marker's two keys, up to the first failure.
    method AttemptSave(source: string, target: string, saved: SaveResult) returns (ok: bool)
      modifies `marker
      ensures marker == MarkerSaved(old(marker), source, target, saved) && ok == saved.Both?
    {
      if saved.Neither? {
        return false;
      }
      marker := marker.(source := Some(source));
      if saved.SourceOnly? {
        return false;
      }
      marker := marker.(target := Some(target));
      ok := true;
    }

    method AttemptClear(clears: bool)
      modifies `marker
      ensures marker == Erased(old(marker), clears)
    {
      if clears {
        marker := NO_KEYS;
      }
    }

    // The firmware's start: a trial's marker stays, a reverted one is reported, any other is discarded.
    method Start(env: Env, clears: bool)
      requires Valid()
      modifies `marker, `detected
      ensures forall pc :: View(pc) == Started(env, old(View(pc)), clears)
    {
      detected := None;
      var version := env.version(slots[running].bytes);
      var pending := slots[running].state == Pending;
      if marker.source.Some? && marker.target.Some? {
        var source, target := marker.source.value, marker.target.value;
        if pending && version == target {
        } else if !pending && version == source && source != target {
          detected := Some(Evidence(source, target));
        } else {
          AttemptClear(clears);
        }
      }
    }

    // The broker has acknowledged the status that reported the rollback.
    method AcknowledgeEvidence(env: Env, clears: bool)
      requires Valid() && detected.Some?
      modifies `marker, `detected
      ensures forall pc :: View(pc) == After(env, old(View(pc)), Acknowledge(clears))
    {
      if !clears {
        return;
      }
      AttemptClear(true);
      detected := None;
    }

    // Up to four attempts; before each but the first the link has to come back.
    method TryDownloads(env: Env, m: Manifest, attempts: nat -> Attempt, recovers: nat -> bool,
                        ghost s: State, ghost before: seq<Step>)
      returns (ok: bool, ghost steps: seq<Step>)
      requires Valid() && Reaches(env, s, before, View(Updating(m, 0)))
      modifies this
      ensures Valid() && before < steps
      ensures Reaches(env, s, steps, View(if ok then Attempting(m, false) else Idle))
      ensures running == old(running) && slots[running] == old(slots)[running]
      ensures ok <==> Updates(env, m, Flash(old(slots)[Other()].bytes, old(record)), attempts, recovers)
      ensures if ok then boot == Other() && slots[boot].state == New && HashOk(env, slots[boot].bytes, m)
              else boot == old(boot)
    {
      hide Reaches, HashOk, Left, Fetched, SucceedsBy, Enabled, After;
      ghost var f := Flash(slots[Other()].bytes, record);
      ok := false;
      var tries: nat := 0;
      steps := before;
      while tries < DOWNLOAD_ATTEMPTS && !ok
        invariant Valid() && tries <= DOWNLOAD_ATTEMPTS
        invariant if tries == 0 && !ok then before == steps else before < steps
        invariant running == old(running) && slots[running] == old(slots)[running]
        invariant !ok ==> Flash(slots[Other()].bytes, record) == LeftBy(env, m, f, attempts, tries)
        invariant forall j :: 0 <= j < tries ==> !SucceedsBy(env, m, f, attempts, j)
        invariant forall j :: 1 <= j < tries ==> recovers(j)
        invariant ok ==> tries < DOWNLOAD_ATTEMPTS && InstalledBy(env, m, f, attempts, recovers, tries)
        invariant if ok then boot == Other() && slots[boot].state == New && HashOk(env, slots[boot].bytes, m)
                  else boot == old(boot)
        invariant Reaches(env, s, steps,
                          View(if ok then Attempting(m, false)
                               else if tries < DOWNLOAD_ATTEMPTS then Updating(m, tries) else Idle))
        decreases DOWNLOAD_ATTEMPTS - tries, !ok
      {
        if tries > 0 && !recovers(tries) {
          GivesUp(env, s, steps, View(Updating(m, tries)));
          steps := steps + [Abandon];
          NotInstalled(env, m, f, attempts, recovers, tries);
          return false, steps;
        }
        ok, steps := AttemptUpdate(env, m, tries, attempts(tries), s, steps);
        SucceedsMeans(env, m, f, attempts, tries);
        if !ok {
          tries := tries + 1;
        }
      }
      if !ok {
        NotInstalled(env, m, f, attempts, recovers, tries);
      }
    }

    // The attempts, then the attempt marker; true when the board is about to restart into the new image.
    method RunUpdate(env: Env, m: Manifest, attempts: nat -> Attempt, recovers: nat -> bool, saved: SaveResult,
                     ghost s: State, ghost before: seq<Step>)
      returns (restarts: bool, ghost steps: seq<Step>)
      requires Valid() && Reaches(env, s, before, View(Updating(m, 0)))
      modifies this
      ensures Valid() && before < steps && Reaches(env, s, steps, View(if restarts then Restarting else Idle))
      ensures running == old(running) && slots[running] == old(slots)[running]
      ensures var f := Flash(old(slots)[Other()].bytes, old(record));
              restarts <==> Updates(env, m, f, attempts, recovers) && saved.Both?
      ensures restarts ==> boot == Other() && slots[boot].state == New && HashOk(env, slots[boot].bytes, m)
      ensures !restarts ==> boot == old(boot) || boot == running
    {
      hide Reaches, HashOk, Updates;
      var ok;
      ok, steps := TryDownloads(env, m, attempts, recovers, s, before);
      if !ok {
        return false, steps;
      }
      steps := SaveAttemptSteps(env, s, steps, View(Attempting(m, false)), saved);
      restarts := AttemptSave(env.version(slots[running].bytes), m.version, saved);
      if !restarts {
        boot := running;
      }
    }

    // A check with the manifest at hand.
    method RunCheck(env: Env, m: Manifest, attempts: nat -> Attempt, recovers: nat -> bool, saved: SaveResult)
      returns (restarts: bool, ghost steps: seq<Step>)
      requires Valid() && m.size > 0
      modifies this
      ensures Valid() && steps != [] && steps[0] == Check(m)
      ensures Reaches(env, old(View(Idle)), steps, View(if restarts then Restarting else Idle))
      ensures running == old(running) && slots[running] == old(slots)[running]
      ensures !WantsUpdate(env, old(View(Idle)), m) ==> !restarts && View(Idle) == old(View(Idle))
      ensures var f := Flash(old(slots)[Other()].bytes, old(record));
              restarts
              <==> WantsUpdate(env, old(View(Idle)), m) && Updates(env, m, f, attempts, recovers) && saved.Both?
      ensures restarts ==> boot == Other() && slots[boot].state == New && HashOk(env, slots[boot].bytes, m)
    {
      ghost var s := View(Idle);
      steps := [];
      assert Reaches(env, s, steps, s);
      hide Reaches, HashOk;
      OneStepMore(env, s, steps, s, Check(m));
      steps := steps + [Check(m)];
      var passive := Other();
      if m.version == env.version(slots[running].bytes) {
        return false, steps;
      }
      if slots[passive].state == Aborted && env.version(slots[passive].bytes) == m.version {
        return false, steps;
      }
      if slots[running].state == Pending {
        return false, steps;
      }
      restarts, steps := RunUpdate(env, m, attempts, recovers, saved, s, steps);
    }

    // The trial of a new image: it is confirmed by the first round in which the server is reachable and the slot can be
    // marked; when the window closes without one, the board restarts into the other slot.
    method RollbackSelfTest(env: Env, rounds: nat, reachable: nat -> bool, marks: nat -> bool, recorded: SlotState,
                            clears: bool)
      returns (confirmed: bool)
      requires Valid() && slots[running].state == Pending && (recorded == Invalid || recorded == Aborted)
      modifies this
      ensures Valid()
      ensures confirmed <==> exists i :: 0 <= i < rounds && reachable(i) && marks(i)
      ensures View(Idle)
              == After(env, old(View(SelfTest)), if confirmed then Confirm(clears) else GiveUp(recorded, clears))
    {
      hide KeptByBoot, Detected;
      var i: nat := 0;
      while i < rounds
        invariant i <= rounds && !exists k :: 0 <= k < i && reachable(k) && marks(k)
      {
        if reachable(i) && marks(i) {
          slots := slots[running := slots[running].(state := SlotState.Valid)];
          AttemptClear(clears);
          return true;
        }
        i := i + 1;
      }
      slots := slots[running := slots[running].(state := recorded)];
      boot := Other();
      running := boot;
      Start(env, clears);
      confirmed := false;
    }
  }
}
