/** The diagnostic journal on disk: events.jsonl (generation 0) and its archives events.1.jsonl and up, written one
    line a record, rotated by renames and repaired after a power cut. */
module JournalFiles {
  import opened TextLines
  import opened Texts

  type Files = map<nat, string>

  // --- Repairing an interrupted append ---

  // How much of `text` is left when the part after the last newline goes.
  function CompleteLength(text: string): (n: nat)
    ensures n <= |text|
  {
    if Complete(text) then |text| else CompleteLength(text[..|text| - 1])
  }

  function Repaired(text: string): string {
    text[..CompleteLength(text)]
  }

  lemma CompleteStays(text: string)
    ensures Complete(text) <==> text == "" || text[|text| - 1] == '\n'
    ensures Complete(text) ==> Repaired(text) == text
  {
  }

  lemma {:induction false} RepairDropsTail(text: string, tail: string)
    requires Complete(text) && NewlineFree(tail)
    ensures Repaired(text + tail) == text
  {
    if tail == "" {
      assert text + tail == text;
    } else {
      var m := |tail| - 1;
      RepairDropsTail(text, tail[..m]);
      assert (text + tail)[..|text| + m] == text + tail[..m];
      assert !Complete(text + tail);
    }
  }

  /** Crash at any byte: `landed` bytes of a record's line reached a file of whole records. Repair restores those
      records, keeps the new one exactly when its newline landed, truncates exactly when something was cut in half,
      and has nothing left to do a second time. */
  lemma CrashAtAnyByte(records: seq<string>, record: string, landed: nat)
    requires forall r :: r in records ==> NewlineFree(r)
    requires NewlineFree(record) && landed <= |record| + 1
    ensures var torn := Flat(records) + (record + "\n")[..landed];
            && Repaired(torn) == Flat(if landed == |record| + 1 then records + [record] else records)
            && (Repaired(torn) != torn <==> 0 < landed <= |record|)
            && Repaired(Repaired(torn)) == Repaired(torn)
  {
    LinesOfFlat(records);
    var tail := (record + "\n")[..landed];
    if landed == |record| + 1 {
      assert tail == record + "\n";
      FlatOfConcat(records, [record]);
      FlatOne(record);
      CompleteStays(Flat(records) + tail);
    } else {
      hide Repaired, Complete, Flat;
      assert tail == record[..landed];
      PrefixIsNewlineFree(record, landed);
      RepairDropsTail(Flat(records), tail);
      RepairDropsTail(Flat(records), "");
      NothingAfter(Flat(records));
    }
  }

  lemma PrefixIsNewlineFree(record: string, landed: nat)
    requires NewlineFree(record) && landed <= |record|
    ensures NewlineFree(record[..landed])
  {
  }

  lemma {:induction false} RepairIsComplete(text: string)
    ensures Complete(Repaired(text)) && Repaired(Repaired(text)) == Repaired(text)
  {
    if !Complete(text) {
      RepairIsComplete(text[..|text| - 1]);
      assert text[..|text| - 1][..CompleteLength(text)] == text[..CompleteLength(text)];
    }
  }

  // Which file operations go wrong: a call that fails leaves the disk alone, after a power cut nothing follows.
  datatype Outcome = Done | Failed | PowerCut

  datatype RepairFaults = RepairFaults(open: bool, seek: bool, truncate: bool)

  datatype BootFaults = BootFaults(mounted: bool, repair: RepairFaults)

  // The unlink and the rename onto each generation.
  datatype RotationFaults = RotationFaults(unlink: nat -> Outcome, rename: nat -> Outcome)

  // One append. `landed` bytes of the new line reach the card; `reported` says whether the C calls all succeeded.
  datatype AppendFaults = AppendFaults(
    mkdir: bool, rotation: RotationFaults, open: bool, landed: nat, reported: bool, powerCut: bool)

  datatype Status = Ok | Error | Cut

  // `logged` says that the record's newline reached the card, whatever the caller was told.
  datatype Result = Result(files: Files, status: Status, logged: bool)

  // Unlinking the destination, then renaming onto it; a missing file is not an error.
  function Shifted(files: Files, generation: nat, faults: RotationFaults): Result
    requires generation > 0
  {
    if faults.unlink(generation) != Done then
      Result(files, if faults.unlink(generation).Failed? then Error else Cut, false)
    else
      var freed := files - {generation};
      if faults.rename(generation) != Done then
        Result(freed, if faults.rename(generation).Failed? then Error else Cut, false)
      else
        Result(if generation - 1 in freed then freed[generation := freed[generation - 1]] - {generation - 1} else freed,
               Ok, false)
  }

  function Rotated(files: Files, generation: nat, faults: RotationFaults): Result
    decreases generation
  {
    if generation == 0 then Result(files, Ok, false)
    else
      var r := Shifted(files, generation, faults);
      if r.status == Ok then Rotated(r.files, generation - 1, faults) else r
  }

  function Written(files: Files, line: string, faults: AppendFaults): Result {
    if faults.open then Result(files, Error, false)
    else
      var landed := if faults.landed < |line| then faults.landed else |line|;
      Result(files[0 := Bytes(files, 0) + line[..landed]],
             if faults.powerCut then Cut else if landed == |line| && faults.reported then Ok else Error,
             landed == |line|)
  }

  function Appended(files: Files, json: string, limit: nat, count: nat, faults: AppendFaults): Result {
    if json == "" || limit == 0 || count < 2 || faults.mkdir then Result(files, Error, false)
    else if 0 in files && |files[0]| + |json| + 1 > limit then
      var r := Rotated(files, count - 1, faults.rotation);
      if r.status == Ok then Written(r.files, json + "\n", faults) else r
    else
      Written(files, json + "\n", faults)
  }

  function Bytes(files: Files, generation: nat): string {
    if generation in files then files[generation] else ""
  }

  predicate RepairFails(text: string, faults: RepairFaults) {
    faults.open || faults.seek || (!Complete(text) && faults.truncate)
  }

  // A boot: with a card in place events.jsonl is repaired, if there is one and the file calls work.
  function Repair(files: Files, faults: BootFaults): Files {
    if !faults.mounted || 0 !in files || RepairFails(files[0], faults.repair) then files
    else files[0 := Repaired(files[0])]
  }

  // The end of the file decides whether there is anything to repair.
  lemma RepairByEnd(text: string)
    ensures Complete(text) <==> text == "" || text[|text| - 1] == '\n'
    ensures Repaired(text) == text <==> Complete(text)
  {
    RepairIsComplete(text);
  }

  // The first n bytes end with a newline, if there are any, and no newline comes after them.
  predicate EndsRecords(text: string, n: int) {
    0 <= n <= |text| && NewlineFree(text[n..]) && (n > 0 ==> text[n - 1] == '\n')
  }

  lemma RepairAtNewline(text: string, n: nat)
    requires EndsRecords(text, n)
    ensures Repaired(text) == text[..n]
  {
    var kept := text[..n];
    LastOfPrefix(text, n);
    RepairByEnd(kept);
    hide Repaired, Complete, NewlineFree;
    RepairDropsTail(kept, text[n..]);
    Rejoined(text, n);
  }

  lemma LastOfPrefix(text: string, n: nat)
    requires n <= |text|
    ensures n > 0 ==> text[..n] != "" && text[..n][n - 1] == text[n - 1] && |text[..n]| == n
  {
  }

  // The scan from the start of the file for its last newline.
  method LastNewline(text: string) returns (last: int)
    ensures EndsRecords(text, last + 1) && 0 <= last + 1 <= |text|
  {
    last := -1;
    var position := 0;
    while position < |text|
      invariant position <= |text| && -1 <= last < position
      invariant forall i :: last < i < position ==> text[i] != '\n'
      invariant last >= 0 ==> text[last] == '\n'
    {
      if text[position] == '\n' {
        last := position;
      }
      position := position + 1;
    }
  }

  // What repair makes of the active file's text: -1 for a failed call, 1 for a truncation.
  method RepairText(text: string, faults: RepairFaults) returns (result: int, kept: string)
    ensures kept == if RepairFails(text, faults) then text else Repaired(text)
    ensures result == if RepairFails(text, faults) then -1 else if kept == text then 0 else 1
  {
    RepairByEnd(text);
    hide Complete, Repaired, EndsRecords;
    if faults.open {
      return -1, text;
    }
    if faults.seek {
      return -1, text;
    }
    if |text| <= 0 {
      return 0, text;
    }
    if text[|text| - 1] == '\n' {
      return 0, text;
    }
    var lastNewline := LastNewline(text);
    var n: nat := lastNewline + 1;
    RepairAtNewline(text, n);
    if faults.truncate {
      return -1, text;
    }
    return 1, text[..n];
  }

  /** The journal directory, as the firmware drives it. */
  class Directory {
    var files: Files

    /** Cuts a half-written last line off events.jsonl. */
    method RepairTail(faults: RepairFaults) returns (result: int)
      modifies this
      ensures files == Repair(old(files), BootFaults(true, faults))
      ensures result == if 0 !in old(files) then 0
                        else if RepairFails(old(files[0]), faults) then -1
                        else if files == old(files) then 0
                        else 1
    {
      hide RepairFails, Repaired;
      if 0 !in files {
        return 0;
      }
      var kept;
      result, kept := RepairText(files[0], faults);
      assert files[0 := files[0]] == files;
      if result > 0 {
        files := files[0 := kept];
      }
    }

    // Power-on: the repair runs only with a card in place, and its failure stops nothing.
    method Start(faults: BootFaults) returns (failed: bool)
      modifies this
      ensures files == Repair(old(files), faults)
      ensures failed <==> faults.mounted && 0 in old(files) && RepairFails(old(files[0]), faults.repair)
    {
      failed := false;
      if faults.mounted {
        var repaired := RepairTail(faults.repair);
        failed := repaired < 0;
      }
    }

    method RotateFiles(count: nat, faults: RotationFaults) returns (status: Status)
      requires count > 0
      modifies this
      ensures var r := Rotated(old(files), count - 1, faults); files == r.files && status == r.status
    {
      var generation := count - 1;
      while generation > 0
        invariant Rotated(files, generation, faults) == Rotated(old(files), count - 1, faults)
      {
        if faults.unlink(generation) != Done {
          return if faults.unlink(generation).Failed? then Error else Cut;
        }
        files := files - {generation};
        if faults.rename(generation) != Done {
          return if faults.rename(generation).Failed? then Error else Cut;
        }
        if generation - 1 in files {
          files := files[generation := files[generation - 1]] - {generation - 1};
        }
        generation := generation - 1;
      }
      return Ok;
    }

    method Append(json: string, limit: nat, count: nat, faults: AppendFaults) returns (status: Status)
      modifies this
      ensures var r := Appended(old(files), json, limit, count, faults); files == r.files && status == r.status
    {
      if json == "" || limit == 0 || count < 2 {
        return Error;
      }
      if faults.mkdir {
        return Error;
      }
      if 0 in files && |files[0]| + |json| + 1 > limit {
        status := RotateFiles(count, faults.rotation);
        if status != Ok {
          return;
        }
      }
      if faults.open {
        return Error;
      }
      var line := json + "\n";
      var landed := if faults.landed < |line| then faults.landed else |line|;
      files := files[0 := Bytes(files, 0) + line[..landed]];
      if faults.powerCut {
        return Cut;
      }
      status := if landed == |line| && faults.reported then Ok else Error;
    }
  }

  // --- What a reader finds ---

  // The bytes of the archives from the highest generation down, then of the active file.
  function ReadBytes(files: Files, highest: nat): string {
    Bytes(files, highest) + if highest == 0 then "" else ReadBytes(files, highest - 1)
  }

  // The records of the same files, read line by line.
  function ReadLines(files: Files, highest: nat): seq<string> {
    Lines(Bytes(files, highest)) + if highest == 0 then [] else ReadLines(files, highest - 1)
  }

  predicate AllComplete(files: Files) {
    forall g :: g in files ==> Complete(files[g])
  }

  lemma BytesComplete(files: Files, generation: nat)
    requires AllComplete(files)
    ensures Complete(Bytes(files, generation))
  {
  }

  lemma {:induction false} ReadLinesOfBytes(files: Files, highest: nat)
    requires AllComplete(files)
    ensures ReadLines(files, highest) == Lines(ReadBytes(files, highest))
  {
    hide Lines, Complete;
    if highest == 0 {
      assert Bytes(files, 0) + "" == Bytes(files, 0) && Lines(Bytes(files, 0)) + [] == Lines(Bytes(files, 0));
    } else {
      ReadLinesOfBytes(files, highest - 1);
      BytesComplete(files, highest);
      LinesOfConcat(Bytes(files, highest), ReadBytes(files, highest - 1));
    }
  }

  lemma {:induction false} ReadBytesFrame(a: Files, b: Files, highest: nat)
    requires forall g :: 0 <= g <= highest ==> Bytes(a, g) == Bytes(b, g)
    ensures ReadBytes(a, highest) == ReadBytes(b, highest)
  {
    if highest > 0 {
      ReadBytesFrame(a, b, highest - 1);
    }
  }

  // What a reader finds below a generation.
  function Below(files: Files, generation: nat): string {
    if generation == 0 then "" else ReadBytes(files, generation - 1)
  }

  function Moved(files: Files, generation: nat): Files
    requires generation > 0 && generation - 1 in files
  {
    files[generation := files[generation - 1]] - {generation - 1}
  }

  lemma ReadBytesRenameTop(files: Files, generation: nat)
    requires 0 < generation && generation !in files && generation - 1 in files
    ensures ReadBytes(Moved(files, generation), generation) == ReadBytes(files, generation)
  {
    hide ReadBytes;
    var moved := Moved(files, generation);
    if generation > 1 {
      ReadBytesFrame(moved, files, generation - 2);
    }
    ReadBytesUnfolds(moved, generation);
    ReadBytesUnfolds(moved, generation - 1);
    ReadBytesUnfolds(files, generation);
    ReadBytesUnfolds(files, generation - 1);
    NothingBefore(Below(files, generation - 1));
    NothingBefore(files[generation - 1] + Below(files, generation - 1));
  }

  // Renaming onto a free generation changes nothing that a reader sees.
  lemma {:induction false} ReadBytesRename(files: Files, generation: nat, highest: nat)
    requires 0 < generation <= highest && generation !in files && generation - 1 in files
    ensures ReadBytes(Moved(files, generation), highest) == ReadBytes(files, highest)
  {
    if generation == highest {
      ReadBytesRenameTop(files, generation);
    } else {
      ReadBytesRename(files, generation, highest - 1);
    }
  }

  lemma ReadBytesUnlink(files: Files, highest: nat)
    requires highest in files
    ensures ReadBytes(files, highest) == files[highest] + ReadBytes(files - {highest}, highest)
  {
    hide ReadBytes;
    var rest := files - {highest};
    if highest > 0 {
      ReadBytesFrame(files, rest, highest - 1);
    }
    ReadBytesUnfolds(files, highest);
    ReadBytesUnfolds(rest, highest);
    NothingBefore(Below(files, highest));
  }

  lemma ReadBytesUnfolds(files: Files, highest: nat)
    ensures ReadBytes(files, highest) == Bytes(files, highest) + Below(files, highest)
  {
  }

  // Writing behind the active file writes behind everything a reader sees.
  lemma {:induction false} ReadBytesAppend(files: Files, text: string, highest: nat)
    ensures ReadBytes(files[0 := Bytes(files, 0) + text], highest) == ReadBytes(files, highest) + text
  {
    if highest == 0 {
      assert Bytes(files, 0) + text + "" == Bytes(files, 0) + "" + text;
    } else {
      ReadBytesAppend(files, text, highest - 1);
      Regroup(Bytes(files, highest), ReadBytes(files, highest - 1), text);
    }
  }

  // --- The invariant: whole records, none over the limit, none missing between the oldest and the newest ---

  // From record k on there is still the newest one, if there is any.
  predicate HasNewest(history: seq<string>, k: int) {
    0 <= k <= |history| && (history != [] ==> k < |history|)
  }

  ghost predicate Kept(text: string, history: seq<string>) {
    exists k :: HasNewest(history, k) && text == Flat(history[k..])
  }

  lemma {:induction false} ActiveIsRead(files: Files, highest: nat)
    requires Bytes(files, 0) != ""
    ensures ReadBytes(files, highest) != ""
  {
    if highest > 0 {
      ActiveIsRead(files, highest - 1);
    }
  }

  ghost predicate Tidy(files: Files, history: seq<string>, limit: nat, count: nat) {
    && count >= 2
    && (forall r :: r in history ==> NewlineFree(r))
    && (forall g :: g in files ==> g < count && |files[g]| <= limit)
    && AllComplete(files)
    && Kept(ReadBytes(files, count - 1), history)
  }

  // Losing whole lines off the front leaves the newest records, as long as something is left.
  lemma FrontLost(history: seq<string>, front: string, rest: string)
    requires forall r :: r in history ==> NewlineFree(r)
    requires Complete(front) && rest != "" && Kept(front + rest, history)
    ensures Kept(rest, history)
  {
    hide Flat, Complete, NewlineFree;
    var k :| HasNewest(history, k) && front + rest == Flat(history[k..]);
    SuffixIsPart(history, k);
    var dropped := DropLines(history[k..], front, rest);
    DropTwice(history, k, dropped);
    NothingFlat();
    assert HasNewest(history, k + dropped);
  }

  lemma UnlinkKeeps(files: Files, history: seq<string>, limit: nat, count: nat)
    requires Tidy(files, history, limit, count) && Bytes(files, 0) != ""
    ensures Tidy(files - {count - 1}, history, limit, count)
  {
    hide Kept, Complete, NewlineFree, ReadBytes;
    var rest := files - {count - 1};
    if count - 1 in files {
      ReadBytesUnlink(files, count - 1);
      ActiveIsRead(rest, count - 1);
      FrontLost(history, files[count - 1], ReadBytes(rest, count - 1));
    } else {
      assert rest == files;
    }
  }

  lemma DropTwice(history: seq<string>, k: nat, dropped: nat)
    requires k + dropped <= |history|
    ensures history[k..][dropped..] == history[k + dropped..]
    ensures history[|history|..] == []
  {
  }

  lemma NothingFlat()
    ensures Flat([]) == ""
  {
  }

  lemma {:induction false} RotationKeeps(
    files: Files, history: seq<string>, limit: nat, count: nat, generation: nat, faults: RotationFaults)
    requires Tidy(files, history, limit, count) && generation < count
    requires generation == count - 1 ==> Bytes(files, 0) != ""
    requires generation in files && generation > 0 ==> generation == count - 1
    ensures var r := Rotated(files, generation, faults);
            Tidy(r.files, history, limit, count) && (r.status == Ok && generation > 0 ==> 0 !in r.files)
    decreases generation
  {
    hide Kept, Complete, NewlineFree, ReadBytes;
    if generation > 0 {
      var freed := files - {generation};
      if generation == count - 1 {
        UnlinkKeeps(files, history, limit, count);
      } else {
        assert freed == files;
      }
      if generation - 1 in freed {
        ReadBytesRename(freed, generation, count - 1);
      }
      var r := Shifted(files, generation, faults);
      if r.status == Ok {
        RotationKeeps(r.files, history, limit, count, generation - 1, faults);
      }
    }
  }

  /** However far a rotation gets, all it takes from a reader is the oldest archive, and that only once the unlink has
      gone through. */
  lemma RotationDropsOldestArchive(files: Files, count: nat, faults: RotationFaults)
    requires count >= 2
    ensures var oldest := if faults.unlink(count - 1) == Done then Bytes(files, count - 1) else "";
            ReadBytes(files, count - 1) == oldest + ReadBytes(Rotated(files, count - 1, faults).files, count - 1)
  {
    hide ReadBytes;
    var freed := files - {count - 1};
    if faults.unlink(count - 1) == Done {
      if count - 1 in files {
        ReadBytesUnlink(files, count - 1);
      } else {
        assert freed == files;
        NothingBefore(ReadBytes(files, count - 1));
      }
      RotationReads(freed, count, count - 1, faults);
      RotationFrees(files, count - 1, faults);
    } else {
      NothingBefore(ReadBytes(files, count - 1));
    }
  }

  lemma RotationFrees(files: Files, generation: nat, faults: RotationFaults)
    requires generation > 0 && faults.unlink(generation) == Done
    ensures Rotated(files, generation, faults) == Rotated(files - {generation}, generation, faults)
  {
    assert files - {generation} - {generation} == files - {generation};
  }

  // With the generation free that a rotation starts from, a reader notices nothing.
  lemma {:induction false} RotationReads(files: Files, count: nat, generation: nat, faults: RotationFaults)
    requires generation < count && (generation > 0 ==> generation !in files)
    ensures ReadBytes(Rotated(files, generation, faults).files, count - 1) == ReadBytes(files, count - 1)
    decreases generation
  {
    hide ReadBytes;
    if generation > 0 {
      assert files - {generation} == files;
      if generation - 1 in files {
        ReadBytesRename(files, generation, count - 1);
      }
      var r := Shifted(files, generation, faults);
      if r.status == Ok {
        RotationReads(r.files, count, generation - 1, faults);
      }
    }
  }

  lemma KeptGrows(text: string, history: seq<string>, json: string)
    requires Kept(text, history)
    ensures Kept(text + (json + "\n"), history + [json])
  {
    var k :| HasNewest(history, k) && text == Flat(history[k..]);
    FlatOfConcat(history[k..], [json]);
    FlatOne(json);
    assert (history + [json])[k..] == history[k..] + [json];
    assert HasNewest(history + [json], k);
  }

  lemma RepairOfTidy(files: Files, history: seq<string>, limit: nat, count: nat, faults: BootFaults)
    requires Tidy(files, history, limit, count)
    ensures Repair(files, faults) == files
  {
    if 0 in files {
      CompleteStays(files[0]);
      assert files[0 := files[0]] == files;
    }
  }

  // Opening the active file for append may create it empty; that changes nothing a reader sees.
  lemma TouchKeeps(files: Files, history: seq<string>, limit: nat, count: nat)
    requires Tidy(files, history, limit, count)
    ensures Tidy(files[0 := Bytes(files, 0)], history, limit, count)
  {
    hide Kept, NewlineFree, Complete, ReadBytes, Flat, Lines;
    BytesComplete(files, 0);
    ReadBytesFrame(files, files[0 := Bytes(files, 0)], count - 1);
  }

  lemma LineIsComplete(text: string, json: string)
    ensures Complete(text + (json + "\n"))
  {
  }

  lemma LineKeeps(files: Files, history: seq<string>, limit: nat, count: nat, json: string)
    requires Tidy(files, history, limit, count) && NewlineFree(json) && |Bytes(files, 0)| + |json| + 1 <= limit
    ensures Tidy(files[0 := Bytes(files, 0) + (json + "\n")], history + [json], limit, count)
  {
    hide Kept, NewlineFree, Complete;
    var line := json + "\n";
    LineIsComplete(Bytes(files, 0), json);
    var after := files[0 := Bytes(files, 0) + line];
    assert AllComplete(after) && forall g :: g in after ==> g < count && |after[g]| <= limit;
    hide AllComplete;
    ReadBytesAppend(files, line, count - 1);
    KeptGrows(ReadBytes(files, count - 1), history, json);
  }

  predicate RepairWorks(faults: BootFaults) {
    faults.mounted && !faults.repair.open && !faults.repair.seek && !faults.repair.truncate
  }

  lemma TornLineKeeps(files: Files, history: seq<string>, limit: nat, count: nat, json: string, landed: nat,
                      reboot: BootFaults)
    requires Tidy(files, history, limit, count) && NewlineFree(json) && landed <= |json| && RepairWorks(reboot)
    ensures Tidy(Repair(files[0 := Bytes(files, 0) + (json + "\n")[..landed]], reboot), history, limit, count)
  {
    TouchKeeps(files, history, limit, count);
    BytesComplete(files, 0);
    hide Tidy, NewlineFree, Complete, Repaired;
    var tail := (json + "\n")[..landed];
    TailIsNewlineFree(json, landed);
    RepairDropsTail(Bytes(files, 0), tail);
    assert files[0 := Bytes(files, 0) + tail][0 := Bytes(files, 0)] == files[0 := Bytes(files, 0)];
  }

  lemma TailIsNewlineFree(json: string, landed: nat)
    requires NewlineFree(json) && landed <= |json|
    ensures NewlineFree((json + "\n")[..landed])
  {
  }

  // --- Runs ---

  // One append, with the boot that follows should power fail during it, or one boot.
  datatype Event = Append(json: string, faults: AppendFaults, reboot: BootFaults) | Boot(reboot: BootFaults)

  // Short writes happen only when power fails, and the repair at the next boot then works; records carry no newline and
  // fit a file.
  predicate Plausible(e: Event, limit: nat) {
    e.Append? ==>
      && NewlineFree(e.json)
      && |e.json| + 1 <= limit
      && (e.faults.powerCut || e.faults.landed == 0 || e.faults.landed > |e.json|)
      && RepairWorks(e.reboot)
  }

  // The files and the records whose newline reached the card, oldest first.
  datatype Journal = Journal(files: Files, history: seq<string>)

  function Step(j: Journal, e: Event, limit: nat, count: nat): Journal {
    match e
    case Boot(reboot) => Journal(Repair(j.files, reboot), j.history)
    case Append(json, faults, reboot) =>
      var r := Appended(j.files, json, limit, count, faults);
      Journal(if r.status == Cut then Repair(r.files, reboot) else r.files,
              if r.logged then j.history + [json] else j.history)
  }

  function Run(j: Journal, events: seq<Event>, limit: nat, count: nat): Journal
    decreases |events|
  {
    if events == [] then j else Run(Step(j, events[0], limit, count), events[1..], limit, count)
  }

  lemma WriteKeeps(files: Files, history: seq<string>, limit: nat, count: nat, e: Event)
    requires Tidy(files, history, limit, count) && e.Append? && Plausible(e, limit)
    requires |Bytes(files, 0)| + |e.json| + 1 <= limit
    ensures var r := Written(files, e.json + "\n", e.faults);
            Tidy(if r.status == Cut then Repair(r.files, e.reboot) else r.files,
                 if r.logged then history + [e.json] else history, limit, count)
  {
    hide Tidy, NewlineFree, Repair, RepairWorks;
    var line := e.json + "\n";
    var landed := if e.faults.landed < |line| then e.faults.landed else |line|;
    var old0 := Bytes(files, 0);
    if landed == |line| {
      assert line[..landed] == line;
      LineKeeps(files, history, limit, count, e.json);
      RepairOfTidy(files[0 := old0 + line], history + [e.json], limit, count, e.reboot);
    } else {
      TornLineKeeps(files, history, limit, count, e.json, landed, e.reboot);
      TouchKeeps(files, history, limit, count);
      assert landed == 0 ==> old0 + line[..landed] == old0;
    }
  }

  lemma StepKeeps(j: Journal, e: Event, limit: nat, count: nat)
    requires Tidy(j.files, j.history, limit, count) && Plausible(e, limit)
    ensures var next := Step(j, e, limit, count);
            Tidy(next.files, next.history, limit, count)
  {
    hide NewlineFree, Repair, Kept, Complete, Written, Rotated;
    RepairOfTidy(j.files, j.history, limit, count, e.reboot);
    if e.Append? {
      if 0 in j.files && |j.files[0]| + |e.json| + 1 > limit {
        RotationKeeps(j.files, j.history, limit, count, count - 1, e.faults.rotation);
        var r := Rotated(j.files, count - 1, e.faults.rotation);
        RepairOfTidy(r.files, j.history, limit, count, e.reboot);
        if r.status == Ok {
          WriteKeeps(r.files, j.history, limit, count, e);
        } else {
          RotationLogsNothing(j.files, count - 1, e.faults.rotation);
        }
      } else {
        WriteKeeps(j.files, j.history, limit, count, e);
      }
    }
  }

  lemma {:induction false} RotationLogsNothing(files: Files, generation: nat, faults: RotationFaults)
    ensures !Rotated(files, generation, faults).logged
    decreases generation
  {
    if generation > 0 {
      RotationLogsNothing(Shifted(files, generation, faults).files, generation - 1, faults);
    }
  }

  lemma {:induction false} RunKeeps(j: Journal, events: seq<Event>, limit: nat, count: nat)
    requires Tidy(j.files, j.history, limit, count) && forall e :: e in events ==> Plausible(e, limit)
    ensures var end := Run(j, events, limit, count);
            Tidy(end.files, end.history, limit, count)
    decreases |events|
  {
    hide Tidy, Plausible, Step;
    if events != [] {
      StepKeeps(j, events[0], limit, count);
      RunKeeps(Step(j, events[0], limit, count), events[1..], limit, count);
    }
  }

  /** Whatever fails and wherever power is cut, reading the archives from the highest generation down and then the
      active file gives the newest records, the last one always among them, in order, without a gap, and no file passes
      the limit. */
  lemma JournalIsContiguousSuffix(events: seq<Event>, limit: nat, count: nat)
    requires count >= 2 && forall e :: e in events ==> Plausible(e, limit)
    ensures var end := Run(Journal(map[], []), events, limit, count);
            && (exists k :: HasNewest(end.history, k) && ReadLines(end.files, count - 1) == end.history[k..])
            && (forall g :: g in end.files ==> g < count && |end.files[g]| <= limit)
  {
    hide Run, Plausible, ReadBytes, ReadLines;
    EmptyReads(count - 1);
    var none: seq<string> := [];
    assert none[0..] == none && HasNewest(none, 0) && Kept("", none);
    RunKeeps(Journal(map[], []), events, limit, count);
    var end := Run(Journal(map[], []), events, limit, count);
    TidyReads(end.files, end.history, limit, count);
  }

  lemma TidyReads(files: Files, history: seq<string>, limit: nat, count: nat)
    requires Tidy(files, history, limit, count)
    ensures exists k :: HasNewest(history, k) && ReadLines(files, count - 1) == history[k..]
    ensures forall g :: g in files ==> g < count && |files[g]| <= limit
  {
    hide NewlineFree, Complete, Lines, Flat, ReadBytes, ReadLines;
    ReadLinesOfBytes(files, count - 1);
    var k :| HasNewest(history, k) && ReadBytes(files, count - 1) == Flat(history[k..]);
    SuffixIsPart(history, k);
    LinesOfFlat(history[k..]);
  }

  lemma SuffixIsPart(history: seq<string>, k: nat)
    requires k <= |history|
    ensures forall r :: r in history[k..] ==> r in history
  {
  }

  lemma {:induction false} EmptyReads(highest: nat)
    ensures ReadBytes(map[], highest) == ""
  {
    if highest > 0 {
      EmptyReads(highest - 1);
    }
  }

  // --- What an append reports ---

  predicate RotationWorks(generation: nat, faults: RotationFaults) {
    forall g :: 1 <= g <= generation ==> faults.unlink(g) == Done && faults.rename(g) == Done
  }

  lemma {:induction false} RotationIsOkIff(files: Files, generation: nat, faults: RotationFaults)
    ensures Rotated(files, generation, faults).status == Ok <==> RotationWorks(generation, faults)
    decreases generation
  {
    if generation > 0 {
      RotationIsOkIff(Shifted(files, generation, faults).files, generation - 1, faults);
    }
  }

  lemma {:induction false} RotationStatusIs(files: Files, generation: nat, faults: RotationFaults)
    ensures (forall g :: 1 <= g <= generation ==> faults.unlink(g) != PowerCut && faults.rename(g) != PowerCut) ==>
              Rotated(files, generation, faults).status != Cut
    ensures (forall g :: 1 <= g <= generation ==> faults.unlink(g) != Failed && faults.rename(g) != Failed) ==>
              Rotated(files, generation, faults).status != Error
    decreases generation
  {
    if generation > 0 {
      RotationStatusIs(Shifted(files, generation, faults).files, generation - 1, faults);
    }
  }

  predicate Rotates(files: Files, json: string, limit: nat) {
    0 in files && |files[0]| + |json| + 1 > limit
  }

  /** An append reports success exactly when every call it made succeeded, and then the record and its newline are on
      the card. It can be on the card without that: when only what comes after the newline fails. */
  lemma AppendIsOkIff(files: Files, json: string, limit: nat, count: nat, faults: AppendFaults)
    ensures var r := Appended(files, json, limit, count, faults);
            && (r.status == Ok
                <==> && json != "" && limit > 0 && count >= 2 && !faults.mkdir
                     && (Rotates(files, json, limit) ==> RotationWorks(count - 1, faults.rotation))
                     && !faults.open && faults.landed > |json| && faults.reported && !faults.powerCut)
            && (r.status == Ok ==> r.logged)
            && (r.logged ==> 0 in r.files && Complete(r.files[0]) && |r.files[0]| > |json|)
  {
    if count >= 2 {
      RotationIsOkIff(files, count - 1, faults.rotation);
      RotationLogsNothing(files, count - 1, faults.rotation);
    }
    var line := json + "\n";
    assert line[..|line|] == line;
    hide Rotated, RotationWorks;
  }

  // --- Torn tails that nobody repairs ---

  // What repair would cut off.
  function Torn(text: string): string {
    text[CompleteLength(text)..]
  }

  lemma {:induction false} TornIsNewlineFree(text: string)
    ensures NewlineFree(Torn(text)) && text == Repaired(text) + Torn(text)
  {
    var n := CompleteLength(text);
    if !Complete(text) {
      TornIsNewlineFree(text[..|text| - 1]);
      assert forall i :: 0 <= i < |text| - 1 - n ==> text[..|text| - 1][n..][i] == text[n..][i];
    }
  }

  lemma OneLine(line: string)
    requires NewlineFree(line)
    ensures Lines(line + "\n") == [line]
  {
    FirstLine(line, "");
    NothingAfter(line + "\n");
  }

  lemma GluedLine(text: string, json: string)
    requires NewlineFree(json)
    ensures Lines(text + (json + "\n")) == Lines(Repaired(text)) + [Torn(text) + json]
  {
    TornIsNewlineFree(text);
    RepairIsComplete(text);
    var torn := Torn(text);
    assert NewlineFree(torn + json);
    hide Lines, Complete, Repaired, Torn, NewlineFree;
    OneLine(torn + json);
    LinesOfConcat(Repaired(text), torn + (json + "\n"));
    Regroup(Repaired(text), torn, json + "\n");
    Regroup(torn, json, "\n");
  }

  // A rotation that goes through moves every file one generation up.
  lemma {:induction false} RotationShifts(files: Files, generation: nat, faults: RotationFaults)
    requires Rotated(files, generation, faults).status == Ok
    ensures var after := Rotated(files, generation, faults).files;
            && (forall g :: 1 <= g <= generation ==> Bytes(after, g) == Bytes(files, g - 1))
            && (forall g :: g > generation ==> Bytes(after, g) == Bytes(files, g))
            && (generation > 0 ==> 0 !in after)
    decreases generation
  {
    if generation > 0 {
      RotationShifts(Shifted(files, generation, faults).files, generation - 1, faults);
    }
  }

  // However far it gets, it only moves files up, or deletes them.
  lemma {:induction false} RotationMoves(files: Files, generation: nat, faults: RotationFaults, g: nat)
    requires g in Rotated(files, generation, faults).files
    ensures exists h :: 0 <= h <= g && h in files && Rotated(files, generation, faults).files[g] == files[h]
    decreases generation
  {
    if generation > 0 {
      var next := Shifted(files, generation, faults);
      if next.status == Ok {
        RotationMoves(next.files, generation - 1, faults, g);
        var h :| 0 <= h <= g && h in next.files && Rotated(files, generation, faults).files[g] == next.files[h];
        assert next.files[h] == files[if h == generation && h - 1 in files then h - 1 else h];
      } else {
        assert next.files[g] == files[g];
      }
    } else {
      assert Rotated(files, 0, faults).files[g] == files[g];
    }
  }

  // The lines of the archives, which a reader finds before those of the active file.
  function ArchiveLines(files: Files, highest: nat): seq<string> {
    if highest == 0 then [] else Lines(Bytes(files, highest)) + ArchiveLines(files, highest - 1)
  }

  lemma {:induction false} ArchivesFirst(files: Files, highest: nat)
    ensures ReadLines(files, highest) == ArchiveLines(files, highest) + Lines(Bytes(files, 0))
  {
    hide Lines;
    if highest == 0 {
      NothingBefore(Lines(Bytes(files, 0)));
      NothingAfter(Lines(Bytes(files, 0)));
    } else {
      ArchivesFirst(files, highest - 1);
      Regroup(Lines(Bytes(files, highest)), ArchiveLines(files, highest - 1), Lines(Bytes(files, 0)));
    }
  }

  lemma {:induction false} ArchivesFrame(after: Files, files: Files, highest: nat)
    requires forall g :: 1 <= g <= highest ==> Bytes(after, g) == Bytes(files, g)
    ensures ArchiveLines(after, highest) == ArchiveLines(files, highest)
  {
    if highest > 0 {
      ArchivesFrame(after, files, highest - 1);
    }
  }

  lemma {:induction false} ArchivesShifted(after: Files, files: Files, highest: nat)
    requires highest > 0 && forall g :: 1 <= g <= highest ==> Bytes(after, g) == Bytes(files, g - 1)
    ensures ArchiveLines(after, highest) == ReadLines(files, highest - 1)
  {
    hide Lines;
    if highest > 1 {
      ArchivesShifted(after, files, highest - 1);
    } else {
      assert ArchiveLines(after, 1) == Lines(Bytes(after, 1)) + ArchiveLines(after, 0);
    }
  }

  // What an append that succeeds leaves in the files.
  lemma AppendedIs(files: Files, json: string, limit: nat, count: nat, faults: AppendFaults)
    requires Appended(files, json, limit, count, faults).status == Ok
    ensures json != "" && count >= 2
    ensures var after, old0 := Appended(files, json, limit, count, faults).files, Bytes(files, 0);
            && 0 in after && after[0] == (if Rotates(files, json, limit) then "" else old0) + (json + "\n")
            && (Rotates(files, json, limit) ==> forall g :: 1 <= g < count ==> Bytes(after, g) == Bytes(files, g - 1))
            && (!Rotates(files, json, limit) ==> forall g :: 1 <= g < count ==> Bytes(after, g) == Bytes(files, g))
  {
    var line := json + "\n";
    assert line[..|line|] == line;
    if Rotates(files, json, limit) {
      RotationShifts(files, count - 1, faults.rotation);
      var before := Rotated(files, count - 1, faults.rotation).files;
      hide Rotated;
      var after := Appended(files, json, limit, count, faults).files;
      assert after == before[0 := Bytes(before, 0) + line];
      assert forall g :: 1 <= g ==> Bytes(after, g) == Bytes(before, g);
    }
  }

  lemma ReadsBehindArchive(after: Files, files: Files, json: string, highest: nat)
    requires NewlineFree(json) && highest > 0 && Bytes(after, 0) == json + "\n"
    requires forall g :: 1 <= g <= highest ==> Bytes(after, g) == Bytes(files, g - 1)
    ensures ReadLines(after, highest) == ReadLines(files, highest - 1) + [json]
  {
    ArchivesFirst(after, highest);
    ArchivesShifted(after, files, highest);
    OneLine(json);
    hide *;
  }

  lemma ReadsGlued(after: Files, files: Files, json: string, highest: nat)
    requires NewlineFree(json) && Bytes(after, 0) == Bytes(files, 0) + (json + "\n")
    requires forall g :: 1 <= g <= highest ==> Bytes(after, g) == Bytes(files, g)
    ensures var text := Bytes(files, 0);
            ReadLines(after, highest) == ArchiveLines(files, highest) + Lines(Repaired(text)) + [Torn(text) + json]
  {
    ArchivesFirst(after, highest);
    ArchivesFrame(after, files, highest);
    GluedLine(Bytes(files, 0), json);
    hide *;
    var text := Bytes(files, 0);
    Regroup(ArchiveLines(files, highest), Lines(Repaired(text)), [Torn(text) + json]);
  }

  lemma AppendReads(files: Files, json: string, limit: nat, count: nat, faults: AppendFaults)
    requires NewlineFree(json) && Appended(files, json, limit, count, faults).status == Ok
    ensures var after, text := Appended(files, json, limit, count, faults).files, Bytes(files, 0);
            && count >= 2
            && ReadLines(after, count - 1)
               == (if Rotates(files, json, limit) then ReadLines(files, count - 2) + [json]
                   else ArchiveLines(files, count - 1) + Lines(Repaired(text)) + [Torn(text) + json])
  {
    AppendedIs(files, json, limit, count, faults);
    var after := Appended(files, json, limit, count, faults).files;
    assert Bytes(after, 0) == after[0];
    hide *;
    if Rotates(files, json, limit) {
      NothingBefore(json + "\n");
      ReadsBehindArchive(after, files, json, count - 1);
    } else {
      ReadsGlued(after, files, json, count - 1);
    }
  }

  // A file that ends with a newline is left alone.
  lemma NothingToRepair(files: Files, text: string, json: string, reboot: BootFaults)
    requires 0 in files && files[0] == text + (json + "\n")
    ensures Repair(files, reboot) == files
  {
    LineIsComplete(text, json);
    RepairByEnd(files[0]);
    hide Repaired, Complete;
    assert files[0 := files[0]] == files;
  }

  lemma GluedIsAnother(torn: string, json: string)
    ensures torn + json == json <==> torn == ""
  {
    NothingBefore(json);
    assert |torn + json| == |torn| + |json|;
  }

  /** A short write without a power cut, or a repair that fails, leaves a torn tail behind the whole lines of the active
      file. If the next append does not rotate, its record is glued to the tail; if it rotates, the tail stays behind as
      the last line of the archive. So the record is a line of its own exactly when there is no tail or the append
      rotates, and either way the next boot does not remove the tail, because repair looks at the end of events.jsonl
      only. */
  lemma TornTailGluesNextRecord(files: Files, json: string, limit: nat, count: nat, faults: AppendFaults)
    requires NewlineFree(json) && Appended(files, json, limit, count, faults).status == Ok
    ensures var after, text := Appended(files, json, limit, count, faults).files, Bytes(files, 0);
            var lines := ReadLines(after, count - 1);
            && count >= 2 && lines != []
            && lines == (if Rotates(files, json, limit) then ReadLines(files, count - 2) + [json]
                         else ArchiveLines(files, count - 1) + Lines(Repaired(text)) + [Torn(text) + json])
            && (lines[|lines| - 1] == json <==> Torn(text) == "" || Rotates(files, json, limit))
            && forall reboot :: Repair(after, reboot) == after
  {
    AppendReads(files, json, limit, count, faults);
    AppendedIs(files, json, limit, count, faults);
    var after, text := Appended(files, json, limit, count, faults).files, Bytes(files, 0);
    forall reboot ensures Repair(after, reboot) == after {
      NothingToRepair(after, if Rotates(files, json, limit) then "" else text, json, reboot);
    }
    hide *;
    GluedIsAnother(Torn(text), json);
  }

  /** And nobody edits an archive: whatever happens to the journal, an archive's text is one that this or a younger
      generation had before. */
  lemma ArchivesAreNeverEdited(j: Journal, e: Event, limit: nat, count: nat, g: nat)
    requires g > 0 && g in Step(j, e, limit, count).files
    ensures exists h :: 0 <= h <= g && h in j.files && Step(j, e, limit, count).files[g] == j.files[h]
  {
    hide Rotated, Repaired, RepairFails;
    if e.Append? && e.json != "" && count >= 2 && g in Rotated(j.files, count - 1, e.faults.rotation).files {
      RotationMoves(j.files, count - 1, e.faults.rotation, g);
    }
  }
}
