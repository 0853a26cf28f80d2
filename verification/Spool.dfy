/** The store-and-forward spool: rows that could not be published are appended to a file, and a byte cursor kept in a
    sidecar file marks how far replay has been acknowledged. */
module Spool {
  import opened Options

  const LINE_MAX: nat := 640
  const SPOOL_MAX_BYTES: nat := 50 * 1024 * 1024
  const REPLAY_PER_TICK: nat := 2

  // How a rewrite of the sidecar ends: as meant, not even opened, or truncated and left unreadable.
  datatype Write = Written | Untouched | Lost

  // The two files (a missing one reads as "" or None) and the RAM copies of size and cursor; size -1 is "not loaded".
  datatype SpoolState = SpoolState(file: string, saved: Option<nat>, size: int, cursor: nat)

  // What the card and the broker do during one call. Writes to the spool file are all-or-nothing.
  datatype AppendWorld = AppendWorld(mounted: bool, unlinked: bool, sidecar: Write, stored: bool)
  datatype TickWorld = TickWorld(
    mounted: bool, connected: bool, readable: bool, acks: Acks, unlinked: bool, sidecar: Write)

  // Whether the broker acknowledges the publish of each round of one tick.
  type Acks = s: seq<bool> | |s| == REPLAY_PER_TICK witness [false, false]

  function SavedCursor(s: SpoolState): nat {
    match s.saved case None => 0 case Some(c) => c
  }

  function Loaded(s: SpoolState, mounted: bool): SpoolState {
    if s.size >= 0 || !mounted then s
    else s.(size := |s.file|, cursor := if SavedCursor(s) > |s.file| then |s.file| else SavedCursor(s))
  }

  function CursorSaved(s: SpoolState, sidecar: Write): SpoolState {
    match sidecar
    case Written => s.(saved := Some(s.cursor))
    case Untouched => s
    case Lost => s.(saved := None)
  }

  function Emptied(s: SpoolState, unlinked: bool, sidecar: Write): SpoolState {
    CursorSaved(s.(file := if unlinked then "" else s.file, size := 0, cursor := 0), sidecar)
  }

  predicate OverCap(s: SpoolState) {
    s.size - s.cursor > SPOOL_MAX_BYTES
  }

  function Appended(s: SpoolState, line: string, e: AppendWorld): SpoolState {
    var s := Loaded(s, e.mounted);
    if s.size < 0 then s
    else
      var s := if OverCap(s) then Emptied(s, e.unlinked, e.sidecar) else s;
      if e.stored then s.(file := s.file + (line + "\n"), size := s.size + |line| + 1) else s
  }

  /** Whatever the file holds, what counts towards the cap is what lies between the cursor and the end: up to 50 MB of
      it is kept, with the new line behind it and both cursors where they were. */
  lemma CapCountsPendingBytes(s: SpoolState, line: string, e: AppendWorld)
    requires s.size == |s.file| && s.cursor <= |s.file| && e.stored
    ensures var t := Appended(s, line, e);
            if |s.file| - s.cursor <= 52_428_800 then
              t == SpoolState(s.file + (line + "\n"), s.saved, |s.file| + |line| + 1, s.cursor)
            else
              t.file == (if e.unlinked then "" else s.file) + (line + "\n") && t.size == |line| + 1 && t.cursor == 0
  {
  }

  // --- The C library calls of the replay loop ---

  function LineSize(text: string, max: nat): (n: nat)
    ensures n <= |text| && n <= max
    ensures text != "" && max > 0 ==> n > 0
  {
    if text == "" || max == 0 then 0
    else if text[0] == '\n' then 1
    else 1 + LineSize(text[1..], max - 1)
  }

  // fgets into a buffer of LINE_MAX bytes: up to and with a newline, at most 639 bytes; "" for end of file.
  function FGets(file: string, pos: nat): (piece: string)
    ensures pos + |piece| <= |file| || piece == ""
  {
    if pos >= |file| then "" else file[pos..pos + LineSize(file[pos..], LINE_MAX - 1)]
  }

  function StrLen(s: string): (n: nat)
    ensures n <= |s|
  {
    if s == "" || s[0] == '\0' then 0 else 1 + StrLen(s[1..])
  }

  // The C string left in the buffer once a newline at its end is cut off.
  function Row(piece: string): string {
    var len := StrLen(piece);
    if len > 0 && piece[len - 1] == '\n' then piece[..len - 1] else piece[..len]
  }

  // --- Replay ---

  datatype Progress = Progress(cursor: nat, sent: seq<string>, advanced: bool)

  // The state after one more round, or None when the tick ends before it.
  function Round(file: string, pos: nat, p: Progress, ack: bool): Option<Progress> {
    var piece := FGets(file, pos);
    var row := Row(piece);
    if piece == "" || (row != "" && !ack) then None
    else Some(Progress(pos + StrLen(piece), if row == "" then p.sent else p.sent + [row], true))
  }

  // The rounds of one tick from round i on, with the file positioned at `pos`.
  function Replay(file: string, pos: nat, p: Progress, acks: Acks, i: nat): Progress
    decreases REPLAY_PER_TICK - i
  {
    if i >= REPLAY_PER_TICK then p
    else match Round(file, pos, p, acks[i])
    case None => p
    case Some(next) => Replay(file, pos + |FGets(file, pos)|, next, acks, i + 1)
  }

  lemma ReplayUnfolds(file: string, pos: nat, p: Progress, acks: Acks, i: nat)
    ensures i >= REPLAY_PER_TICK ==> Replay(file, pos, p, acks, i) == p
    ensures i < REPLAY_PER_TICK ==>
              Replay(file, pos, p, acks, i)
              == match Round(file, pos, p, acks[i])
                 case None => p
                 case Some(next) => Replay(file, pos + |FGets(file, pos)|, next, acks, i + 1)
  {
  }

  predicate Idle(s: SpoolState, e: TickWorld) {
    s.size <= 0 || s.cursor >= s.size || !e.connected || !e.readable
  }

  datatype Ticked = Ticked(after: SpoolState, sent: seq<string>)

  function Tick(s: SpoolState, e: TickWorld): Ticked {
    var s := Loaded(s, e.mounted);
    if Idle(s, e) then Ticked(s, [])
    else
      var p := Replay(s.file, s.cursor, Progress(s.cursor, [], false), e.acks, 0);
      var t := s.(cursor := p.cursor);
      Ticked(if t.cursor >= t.size then Emptied(t, e.unlinked, e.sidecar)
             else if p.advanced then CursorSaved(t, e.sidecar)
             else t, p.sent)
  }

  /** A tick with nothing pending, without a broker or without a readable file sends nothing, and what it changes is
      what loading does. */
  lemma IdleTickChangesNothing(s: SpoolState, e: TickWorld)
    requires var l := Loaded(s, e.mounted); l.size <= 0 || l.cursor >= l.size || !e.connected || !e.readable
    ensures Tick(s, e) == Ticked(Loaded(s, e.mounted), [])
  {
  }

  /** The datalog task's spool state, changed in place. */
  class SpoolTask {
    var file: string
    var saved: Option<nat>
    var size: int
    var cursor: nat

    ghost function View(): SpoolState
      reads this
    {
      SpoolState(file, saved, size, cursor)
    }

    // Power-on: the files are what they were, the size is not known yet.
    constructor (file: string, saved: Option<nat>)
      ensures View() == SpoolState(file, saved, -1, 0)
    {
      this.file, this.saved, size, cursor := file, saved, -1, 0;
    }

    method LoadState(mounted: bool)
      modifies `size, `cursor
      ensures View() == Loaded(old(View()), mounted)
    {
      if size >= 0 || !mounted {
        return;
      }
      size := |file|;
      cursor := 0;
      if saved.Some? {
        cursor := saved.value;
      }
      if cursor > size {
        cursor := size;
      }
    }

    method SaveCursor(sidecar: Write)
      modifies `saved
      ensures View() == CursorSaved(old(View()), sidecar)
    {
      if sidecar != Untouched {
        saved := None;
        if sidecar == Written {
          saved := Some(cursor);
        }
      }
    }

    method Reset(unlinked: bool, sidecar: Write)
      modifies this
      ensures View() == Emptied(old(View()), unlinked, sidecar)
    {
      if unlinked {
        file := "";
      }
      size := 0;
      cursor := 0;
      SaveCursor(sidecar);
    }

    method Append(line: string, e: AppendWorld)
      modifies this
      ensures View() == Appended(old(View()), line, e)
    {
      LoadState(e.mounted);
      if size < 0 {
        return;
      }
      if size - cursor > SPOOL_MAX_BYTES {
        Reset(e.unlinked, e.sidecar);
      }
      if e.stored {
        file := file + (line + "\n");
        size := size + |line| + 1;
      }
    }

    // One round: read a line at `pos`, publish it, and move the cursor past it once acknowledged.
    method ReplayRow(pos: nat, sent: seq<string>, ack: bool) returns (ended: bool, next: nat, sent': seq<string>)
      modifies `cursor
      ensures forall advanced ::
        Round(file, pos, Progress(old(cursor), sent, advanced), ack)
        == if ended then None else Some(Progress(cursor, sent', true))
      ensures ended ==> cursor == old(cursor) && sent' == sent
      ensures next == pos + |FGets(file, pos)|
    {
      hide FGets, StrLen;
      sent' := sent;
      var lineStart := pos;
      var piece := FGets(file, pos);
      next := pos + |piece|;
      if piece == "" {
        return true, next, sent;
      }
      var len: nat := StrLen(piece);
      var line := piece[..len];
      if len > 0 && line[len - 1] == '\n' {
        line := line[..len - 1];
      }
      assert line == Row(piece);
      if line != "" && !ack {
        return true, next, sent;
      }
      cursor := lineStart + len;
      if line != "" {
        sent' := sent + [line];
      }
      ended := false;
    }

    method ReplayRows(acks: Acks) returns (sent: seq<string>, advanced: bool)
      modifies `cursor
      ensures Progress(cursor, sent, advanced) == Replay(file, old(cursor), Progress(old(cursor), [], false), acks, 0)
    {
      hide Replay, Round, FGets;
      sent, advanced := [], false;
      var pos: nat := cursor;
      var i: nat := 0;
      while i < REPLAY_PER_TICK
        modifies `cursor
        invariant i <= REPLAY_PER_TICK
        invariant Replay(file, pos, Progress(cursor, sent, advanced), acks, i)
                  == Replay(file, old(cursor), Progress(old(cursor), [], false), acks, 0)
      {
        ReplayUnfolds(file, pos, Progress(cursor, sent, advanced), acks, i);
        var ended: bool;
        ended, pos, sent := ReplayRow(pos, sent, acks[i]);
        if ended {
          return;
        }
        advanced := true;
        i := i + 1;
      }
      ReplayUnfolds(file, pos, Progress(cursor, sent, advanced), acks, i);
    }

    // The rows this tick publishes and the broker acknowledges, in order.
    method ReplayTick(e: TickWorld) returns (sent: seq<string>)
      modifies this
      ensures Ticked(View(), sent) == Tick(old(View()), e)
    {
      hide Replay, Loaded, Emptied, CursorSaved;
      sent := [];
      LoadState(e.mounted);
      if size <= 0 || cursor >= size || !e.connected || !e.readable {
        return;
      }
      var advanced: bool;
      sent, advanced := ReplayRows(e.acks);
      if cursor >= size {
        Reset(e.unlinked, e.sidecar);
      } else if advanced {
        SaveCursor(e.sidecar);
      }
    }

    // A row that fits the line buffer goes out live, or into the spool; an empty or overlong one goes nowhere.
    method HandleSnapshot(row: string, published: bool, e: AppendWorld)
      modifies this
      ensures View() == if published || row == "" || |row| >= LINE_MAX then old(View())
                        else Appended(old(View()), row, e)
    {
      if |row| <= 0 || |row| >= LINE_MAX {
        return;
      }
      if !published {
        Append(row, e);
      }
    }
  }
}
