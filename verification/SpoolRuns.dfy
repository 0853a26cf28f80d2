/** Runs of the store-and-forward spool over appends, replay ticks, failed publishes and power cuts: what happened to
    every row that was ever spooled. */
module SpoolRuns {
  import opened Options
  import opened TextLines
  import opened Texts
  import opened Spool
  import opened SpoolRows

  // An acknowledged publish out of the spool: which row, which bytes, in which boot.
  datatype Delivery = Delivery(row: nat, bytes: string, boot: nat)

  // The datalog task's state and what an onlooker remembers: all rows ever spooled, how many left with earlier files,
  // the rows the cap discarded, how many of this file's rows are acknowledged, where RAM and sidecar cursors point.
  datatype World = World(spool: SpoolState, history: seq<string>, base: nat, dropped: set<nat>, reached: nat,
                         at: At, savedAt: At, log: seq<Delivery>, boot: nat)

  // A row handed to the spool; a replay tick; a tick that loses power after its last rounds, from round i on, before
  // the cursor is saved; a power cut between calls.
  datatype Step =
    | Append(row: string, a: AppendWorld)
    | Replays(e: TickWorld)
    | CutShort(e: TickWorld, i: nat)
    | PowerCut

  function Start(): World {
    World(SpoolState("", None, -1, 0), [], 0, {}, 0, START, START, [], 0)
  }

  predicate Live(w: World) {
    w.spool.size >= 0
  }

  function Rows(w: World): seq<string> {
    if w.base <= |w.history| then w.history[w.base..] else []
  }

  function Load(w: World, mounted: bool): World {
    if Live(w) || !mounted then w else w.(spool := Loaded(w.spool, true), at := w.savedAt)
  }

  // The spool starts over. If the old file could not be unlinked, its rows are still there, in front of those to come.
  function StartOver(w: World, unlinked: bool, sidecar: Write): World {
    var gone := unlinked || w.spool.file == "";
    w.(spool := Emptied(w.spool, unlinked, sidecar), at := START, savedAt := START,
       base := if gone then |w.history| else w.base, reached := if gone then 0 else w.reached)
  }

  predicate IsUnsent(w: World, k: nat) {
    w.base + w.reached <= k < |w.history|
  }

  function Unsent(w: World): set<nat> {
    set k: nat | k < |w.history| && IsUnsent(w, k)
  }

  function Room(w: World, a: AppendWorld): World {
    if OverCap(w.spool) then StartOver(w, a.unlinked, a.sidecar).(dropped := w.dropped + Unsent(w)) else w
  }

  function Stored(w: World, row: string): World {
    w.(spool := w.spool.(file := w.spool.file + (row + "\n"), size := w.spool.size + |row| + 1),
       history := w.history + [row])
  }

  function AfterAppend(w: World, row: string, a: AppendWorld): World {
    var w := Load(w, a.mounted);
    if !Live(w) then w
    else
      var w := Room(w, a);
      if a.stored then Stored(w, row) else w
  }

  function Deliveries(first: nat, sent: seq<string>, boot: nat): seq<Delivery> {
    seq(|sent|, i requires 0 <= i < |sent| => Delivery(first + i, sent[i], boot))
  }

  function Sending(w: World, to: At, p: Progress): World {
    w.(spool := w.spool.(cursor := p.cursor), at := to,
       reached := if Acked(to) > w.reached then Acked(to) else w.reached,
       log := w.log + Deliveries(w.base + Acked(w.at), p.sent, w.boot))
  }

  // The rounds of a tick: what was sent is what the replay loop read from the file.
  function Replayed(w: World, acks: Acks, i: nat): World {
    Sending(w, Reached(Rows(w), w.at, acks, i),
            Replay(w.spool.file, w.spool.cursor, Progress(w.spool.cursor, [], false), acks, i))
  }

  function Settled(before: World, w: World, e: TickWorld): World {
    if w.spool.cursor >= w.spool.size then StartOver(w, e.unlinked, e.sidecar)
    else if w.at == before.at then w
    else
      w.(spool := CursorSaved(w.spool, e.sidecar),
         savedAt := match e.sidecar case Written => w.at case Untouched => w.savedAt case Lost => START)
  }

  function AfterTick(w: World, e: TickWorld): World {
    var w := Load(w, e.mounted);
    if Idle(w.spool, e) then w else Settled(w, Replayed(w, e.acks, 0), e)
  }

  function Off(w: World): World {
    w.(spool := w.spool.(size := -1, cursor := 0), at := START, boot := w.boot + 1)
  }

  function AfterCutTick(w: World, e: TickWorld, i: nat): World {
    var w := Load(w, e.mounted);
    Off(if Idle(w.spool, e) then w else Replayed(w, e.acks, i))
  }

  function After(w: World, step: Step): World {
    match step
    case Append(row, a) => AfterAppend(w, row, a)
    case Replays(e) => AfterTick(w, e)
    case CutShort(e, i) => AfterCutTick(w, e, i)
    case PowerCut => Off(w)
  }

  // Starting over works as one step: the file goes, and the sidecar no longer points into it.
  predicate CleanReset(s: SpoolState, unlinked: bool, sidecar: Write) {
    (unlinked || s.file == "") && (sidecar != Untouched || SavedCursor(s) == 0)
  }

  predicate Drains(w: World, e: TickWorld) {
    var w := Load(w, e.mounted);
    !Idle(w.spool, e) && Replayed(w, e.acks, 0).spool.cursor >= w.spool.size
  }

  // The one assumption on the environment; rows are what the CSV builder makes.
  predicate Steady(w: World, step: Step) {
    match step
    case Append(row, a) =>
      RowOk(row) && (OverCap(Load(w, a.mounted).spool) ==> CleanReset(w.spool, a.unlinked, a.sidecar))
    case Replays(e) => Drains(w, e) ==> CleanReset(w.spool, e.unlinked, e.sidecar)
    case CutShort(_, i) => i <= REPLAY_PER_TICK
    case PowerCut => true
  }

  predicate SteadyRun(w: World, steps: seq<Step>)
    decreases |steps|
  {
    steps == [] || (Steady(w, steps[0]) && SteadyRun(After(w, steps[0]), steps[1..]))
  }

  function Final(w: World, steps: seq<Step>): World
    decreases |steps|
  {
    if steps == [] then w else Final(After(w, steps[0]), steps[1..])
  }

  // --- What every step keeps ---

  predicate FilesOk(w: World) {
    && w.base <= |w.history| && RowsOk(w.history)
    && w.spool.file == Flat(Rows(w))
    && On(Rows(w), w.savedAt) && SavedCursor(w.spool) == Offset(Rows(w), w.savedAt)
    && Acked(w.savedAt) <= w.reached <= |Rows(w)|
    && w.spool.size >= -1
    && (Live(w) ==>
          && w.spool.size == |w.spool.file|
          && On(Rows(w), w.at) && w.spool.cursor == Offset(Rows(w), w.at) && Acked(w.at) <= w.reached)
  }

  predicate Delivered(log: seq<Delivery>, row: nat) {
    exists i :: 0 <= i < |log| && log[i].row == row
  }

  predicate TrueToHistory(w: World, d: Delivery) {
    d.row < |w.history| && d.bytes == w.history[d.row]
  }

  predicate InPlace(w: World, d: Delivery) {
    d.row < w.base + w.reached && d.boot <= w.boot && (d.boot == w.boot ==> Live(w) && d.row < w.base + Acked(w.at))
  }

  predicate InOrder(log: seq<Delivery>) {
    forall i, j :: 0 <= i < j < |log| && log[i].boot == log[j].boot ==> log[i].row < log[j].row
  }

  predicate Covered(w: World) {
    forall k: nat :: k < w.base + w.reached ==> k in w.dropped || Delivered(w.log, k)
  }

  predicate LogOk(w: World) {
    && (forall d :: d in w.log ==> TrueToHistory(w, d) && InPlace(w, d))
    && InOrder(w.log)
    && Covered(w)
    && (forall k :: k in w.dropped ==> k < w.base)
  }

  lemma OffsetInFile(rows: seq<string>, at: At)
    requires On(rows, at)
    ensures Offset(rows, at) <= |Flat(rows)|
    ensures at.row < |rows| ==> Offset(rows, at) < |Flat(rows)|
  {
    if at.row < |rows| {
      FlatSplits(rows, at.row);
    } else {
      assert rows[..at.row] == rows;
    }
  }

  lemma LoadKeeps(w: World, mounted: bool)
    requires FilesOk(w)
    ensures FilesOk(Load(w, mounted)) && (LogOk(w) ==> LogOk(Load(w, mounted)))
  {
    OffsetInFile(Rows(w), w.savedAt);
    hide Offset, RowsOk, On;
    var l := Load(w, mounted);
    assert Rows(l) == Rows(w);
    assert FilesOk(l);
    hide FilesOk;
    assert LogOk(w) ==>
        forall d :: d in w.log ==> TrueToHistory(l, d) == TrueToHistory(w, d) && (InPlace(w, d) ==> InPlace(l, d));
  }

  // The file holds the rows the onlooker thinks it holds, and replay stands, or will stand after a boot, at one of the
  // stopping places.
  predicate Truthful(w: World) {
    && w.base <= |w.history| && RowsOk(w.history)
    && w.spool.file == Flat(Rows(w))
    && (if Live(w) then On(Rows(w), w.at) && w.spool.cursor == Offset(Rows(w), w.at)
        else On(Rows(w), w.savedAt) && SavedCursor(w.spool) == Offset(Rows(w), w.savedAt))
  }

  lemma LoadIsTruthful(w: World, mounted: bool)
    requires Truthful(w)
    ensures Truthful(Load(w, mounted))
  {
    if !Live(w) {
      OffsetInFile(Rows(w), w.savedAt);
    }
    hide Offset, RowsOk, On;
    assert Rows(Load(w, mounted)) == Rows(w);
  }

  // The rows a tick sends are the next rows of the file.
  lemma SendsNextRows(w: World, acks: Acks, i: nat)
    requires Truthful(w) && Live(w) && i <= REPLAY_PER_TICK
    ensures var p := Replay(w.spool.file, w.spool.cursor, Progress(w.spool.cursor, [], false), acks, i);
            var to := Reached(Rows(w), w.at, acks, i);
            && On(Rows(w), to) && Acked(w.at) <= Acked(to) <= |Rows(w)|
            && Acked(to) <= Acked(w.at) + REPLAY_PER_TICK - i
            && p == Progress(Offset(Rows(w), to), Rows(w)[Acked(w.at)..Acked(to)], to != w.at)
  {
    hide Flat, RowOk, Replay, Reached, Offset;
    assert RowsOk(Rows(w));
    ReplayOnRows(Rows(w), w.at, Progress(w.spool.cursor, [], false), acks, i);
  }

  lemma ReplayKeepsFiles(w: World, acks: Acks, i: nat)
    requires FilesOk(w) && Live(w) && i <= REPLAY_PER_TICK
    ensures FilesOk(Replayed(w, acks, i))
  {
    SendsNextRows(w, acks, i);
    hide Flat, RowsOk, Replay, Reached, Offset, On;
    assert Rows(Replayed(w, acks, i)) == Rows(w);
  }

  // Rows from `first` on were sent in this boot, in order and byte for byte.
  predicate Sends(w: World, t: World, first: nat, n: nat) {
    && t.history == w.history && t.base == w.base && t.dropped == w.dropped && t.boot == w.boot && Live(t)
    && first == w.base + Acked(w.at) && first + n == t.base + Acked(t.at) <= |w.history|
    && t.reached == (if Acked(t.at) > w.reached then Acked(t.at) else w.reached)
    && t.log == w.log + Deliveries(first, w.history[first..first + n], w.boot)
  }

  lemma SliceOfDrop<X>(s: seq<X>, b: nat, from: nat, to: nat)
    requires b <= |s| && from <= to <= |s| - b
    ensures s[b..][from..to] == s[b + from..b + to]
  {
  }

  lemma SendingSends(w: World, to: At, p: Progress)
    requires w.base <= |w.history| && Live(w)
    requires Acked(w.at) <= Acked(to) <= |Rows(w)| && p.sent == Rows(w)[Acked(w.at)..Acked(to)]
    ensures Sends(w, Sending(w, to, p), w.base + Acked(w.at), Acked(to) - Acked(w.at))
  {
    hide Deliveries, Acked;
    SliceOfDrop(w.history, w.base, Acked(w.at), Acked(to));
  }

  lemma ReplaySends(w: World, acks: Acks, i: nat) returns (n: nat)
    requires FilesOk(w) && Live(w) && i <= REPLAY_PER_TICK
    ensures n <= REPLAY_PER_TICK - i && Sends(w, Replayed(w, acks, i), w.base + Acked(w.at), n)
  {
    hide Flat, Replay, Reached, Offset, On, Sends, Rows, Sending;
    SendsNextRows(w, acks, i);
    var to := Reached(Rows(w), w.at, acks, i);
    var p := Replay(w.spool.file, w.spool.cursor, Progress(w.spool.cursor, [], false), acks, i);
    n := Acked(to) - Acked(w.at);
    SendingSends(w, to, p);
  }

  lemma SendsEntries(w: World, t: World, first: nat, n: nat)
    requires Sends(w, t, first, n) && LogOk(w) && Live(w)
    ensures forall d :: d in t.log ==> TrueToHistory(t, d) && InPlace(t, d)
  {
    forall d | d in t.log ensures TrueToHistory(t, d) && InPlace(t, d) {
      if d in w.log {
        assert TrueToHistory(w, d) && InPlace(w, d);
      } else {
        var more := Deliveries(first, w.history[first..first + n], w.boot);
        assert d in more;
        var i: nat :| i < |more| && more[i] == d;
      }
    }
  }

  lemma SendsInOrder(w: World, t: World, first: nat, n: nat)
    requires Sends(w, t, first, n) && LogOk(w)
    ensures InOrder(t.log)
  {
    var m := |w.log|;
    forall i, j | 0 <= i < j < |t.log| && t.log[i].boot == t.log[j].boot ensures t.log[i].row < t.log[j].row {
      if j < m {
        assert t.log[i] == w.log[i] && t.log[j] == w.log[j];
      } else {
        assert t.log[j].row == first + (j - m);
        if i < m {
          assert t.log[i] == w.log[i] && w.log[i] in w.log;
          assert InPlace(w, w.log[i]);
        } else {
          assert t.log[i].row == first + (i - m);
        }
      }
    }
  }

  lemma SendsCover(w: World, t: World, first: nat, n: nat)
    requires Sends(w, t, first, n) && Covered(w) && Acked(w.at) <= w.reached
    ensures Covered(t)
  {
    forall k: nat | k < t.base + t.reached ensures k in t.dropped || Delivered(t.log, k) {
      if k < w.base + w.reached {
        if k !in w.dropped {
          var j :| 0 <= j < |w.log| && w.log[j].row == k;
          assert t.log[j].row == k;
        }
      } else {
        assert t.log[|w.log| + (k - first)].row == k;
      }
    }
  }

  lemma ReplayKeepsLog(w: World, acks: Acks, i: nat)
    requires FilesOk(w) && LogOk(w) && Live(w) && i <= REPLAY_PER_TICK
    ensures LogOk(Replayed(w, acks, i))
  {
    var n := ReplaySends(w, acks, i);
    var t, first := Replayed(w, acks, i), w.base + Acked(w.at);
    SendsEntries(w, t, first, n);
    SendsInOrder(w, t, first, n);
    assert Acked(w.at) <= w.reached && Covered(w);
    SendsCover(w, t, first, n);
    hide Replayed, InOrder, Covered, TrueToHistory, InPlace;
  }

  lemma StartOverKeeps(w: World, unlinked: bool, sidecar: Write)
    requires FilesOk(w) && Live(w) && CleanReset(w.spool, unlinked, sidecar)
    ensures FilesOk(StartOver(w, unlinked, sidecar))
  {
    assert w.history[|w.history|..] == [];
  }

  lemma StoreKeepsFiles(w: World, row: string)
    requires FilesOk(w) && Live(w) && RowOk(row)
    ensures FilesOk(Stored(w, row))
  {
    var t, rows := Stored(w, row), Rows(w);
    assert Rows(t) == rows + [row];
    FlatOfConcat(rows, [row]);
    FlatOne(row);
    assert (rows + [row])[..w.savedAt.row] == rows[..w.savedAt.row];
    assert (rows + [row])[..w.at.row] == rows[..w.at.row];
    hide Flat, RowOk;
    assert RowsOk(t.history);
    hide RowsOk;
  }

  lemma StoreKeepsLog(w: World, row: string)
    requires LogOk(w)
    ensures LogOk(Stored(w, row))
  {
    var t := Stored(w, row);
    forall d | d in t.log ensures TrueToHistory(t, d) && InPlace(t, d) {
      assert TrueToHistory(w, d) && InPlace(w, d);
    }
    assert Covered(w);
  }

  // Starting over is safe for the log once every row still in the file is acknowledged or counted as dropped.
  lemma StartOverKeepsLog(w: World, s: SpoolState, t: World)
    requires LogOk(w) && w.base + w.reached <= |w.history|
    requires t == w.(spool := s, base := |w.history|, reached := 0, at := START, savedAt := START, dropped := t.dropped)
    requires t.dropped == w.dropped + Unsent(w) && s.size >= 0
    ensures LogOk(t)
  {
    forall d | d in t.log ensures TrueToHistory(t, d) && InPlace(t, d) {
      assert TrueToHistory(w, d) && InPlace(w, d);
    }
    forall k: nat | k < t.base + t.reached ensures k in t.dropped || Delivered(t.log, k) {
      assert k < w.base + w.reached ==> k in w.dropped || Delivered(w.log, k);
    }
  }

  lemma AppendKeeps(w: World, row: string, a: AppendWorld)
    requires FilesOk(w) && LogOk(w) && Steady(w, Step.Append(row, a))
    ensures FilesOk(AfterAppend(w, row, a)) && LogOk(AfterAppend(w, row, a))
  {
    LoadKeeps(w, a.mounted);
    var l := Load(w, a.mounted);
    if Live(l) {
      var r := Room(l, a);
      if OverCap(l.spool) {
        StartOverKeeps(l, a.unlinked, a.sidecar);
        StartOverKeepsLog(l, Emptied(l.spool, a.unlinked, a.sidecar), r);
        assert FilesOk(StartOver(l, a.unlinked, a.sidecar)) ==> FilesOk(r);
      }
      hide FilesOk, LogOk, RowOk, Room;
      if a.stored {
        StoreKeepsFiles(r, row);
        StoreKeepsLog(r, row);
      }
    }
  }

  lemma DrainedMeansAllSent(w: World)
    requires FilesOk(w) && Live(w) && w.spool.cursor >= w.spool.size
    ensures w.base + w.reached == |w.history| && Unsent(w) == {}
  {
    OffsetInFile(Rows(w), w.at);
  }

  // Moving or losing the sidecar's cursor.
  lemma SaveKeeps(w: World, saved: Option<nat>, savedAt: At)
    requires FilesOk(w) && LogOk(w) && Live(w)
    requires (saved == Some(w.spool.cursor) && savedAt == w.at) || (saved == None && savedAt == START)
    ensures var t := w.(spool := w.spool.(saved := saved), savedAt := savedAt); FilesOk(t) && LogOk(t)
  {
    var t := w.(spool := w.spool.(saved := saved), savedAt := savedAt);
    assert Rows(t) == Rows(w) && Rows(w)[..0] == [];
    hide RowsOk, Flat;
    assert FilesOk(t);
    hide FilesOk;
    forall d | d in t.log ensures TrueToHistory(t, d) && InPlace(t, d) {
      assert TrueToHistory(w, d) && InPlace(w, d);
    }
    assert Covered(w);
  }

  lemma SettleKeeps(before: World, w: World, e: TickWorld)
    requires FilesOk(w) && LogOk(w) && Live(w)
    requires w.spool.cursor >= w.spool.size ==> CleanReset(w.spool, e.unlinked, e.sidecar)
    ensures FilesOk(Settled(before, w, e)) && LogOk(Settled(before, w, e))
  {
    hide FilesOk, LogOk;
    if w.spool.cursor >= w.spool.size {
      DrainedMeansAllSent(w);
      StartOverKeeps(w, e.unlinked, e.sidecar);
      StartOverKeepsLog(w, Emptied(w.spool, e.unlinked, e.sidecar), StartOver(w, e.unlinked, e.sidecar));
    } else {
      SaveKeeps(w, Some(w.spool.cursor), w.at);
      SaveKeeps(w, None, START);
    }
  }

  lemma TickKeeps(w: World, e: TickWorld)
    requires FilesOk(w) && LogOk(w) && Steady(w, Replays(e))
    ensures FilesOk(AfterTick(w, e)) && LogOk(AfterTick(w, e))
  {
    LoadKeeps(w, e.mounted);
    var l := Load(w, e.mounted);
    if !Idle(l.spool, e) {
      ReplayKeepsFiles(l, e.acks, 0);
      ReplayKeepsLog(l, e.acks, 0);
      hide FilesOk, LogOk, Settled, Replay, Reached;
      SettleKeeps(l, Replayed(l, e.acks, 0), e);
    }
  }

  lemma OffKeeps(w: World)
    requires FilesOk(w) && LogOk(w)
    ensures FilesOk(Off(w)) && LogOk(Off(w))
  {
    var t := Off(w);
    assert Rows(t) == Rows(w);
    assert FilesOk(t);
    hide FilesOk;
    forall d | d in t.log ensures TrueToHistory(t, d) && InPlace(t, d) {
      assert TrueToHistory(w, d) && InPlace(w, d);
    }
    assert Covered(w);
  }

  lemma StepKeeps(w: World, step: Step)
    requires FilesOk(w) && LogOk(w) && Steady(w, step)
    ensures FilesOk(After(w, step)) && LogOk(After(w, step))
  {
    hide AfterAppend, AfterTick, Off, FilesOk, LogOk, Replayed;
    match step {
      case Append(row, a) => AppendKeeps(w, row, a);
      case Replays(e) => TickKeeps(w, e);
      case CutShort(e, i) =>
        LoadKeeps(w, e.mounted);
        var l := Load(w, e.mounted);
        if Idle(l.spool, e) {
          OffKeeps(l);
        } else {
          ReplayKeepsFiles(l, e.acks, i);
          ReplayKeepsLog(l, e.acks, i);
          OffKeeps(Replayed(l, e.acks, i));
        }
      case PowerCut => OffKeeps(w);
    }
  }

  lemma {:induction false} RunKeeps(w: World, steps: seq<Step>)
    requires FilesOk(w) && LogOk(w) && SteadyRun(w, steps)
    ensures FilesOk(Final(w, steps)) && LogOk(Final(w, steps))
    decreases |steps|
  {
    hide FilesOk, LogOk, After, Steady;
    if steps != [] {
      StepKeeps(w, steps[0]);
      RunKeeps(After(w, steps[0]), steps[1..]);
    }
  }

  // --- What that means for the rows ---

  // The row is in the file, and what a reboot replays starts at or before it.
  predicate StillPending(w: World, k: nat) {
    && w.base <= k < |w.history|
    && w.spool.file == Flat(w.history[w.base..k]) + (w.history[k] + "\n" + Flat(w.history[k + 1..]))
    && SavedCursor(w.spool) <= |Flat(w.history[w.base..k])|
  }

  lemma PendingAfterSaved(w: World, k: nat)
    requires FilesOk(w) && w.base + Acked(w.savedAt) <= k < |w.history|
    ensures StillPending(w, k)
  {
    var rows, j := Rows(w), k - w.base;
    FlatSplits(rows, j);
    assert rows[..j] == w.history[w.base..k] && rows[j + 1..] == w.history[k + 1..] && rows[j] == w.history[k];
    OffsetMonotone(rows, w.savedAt, j);
    assert rows[..j] == w.history[w.base..k];
  }

  lemma {:induction false} OffsetMonotone(rows: seq<string>, at: At, j: nat)
    requires On(rows, at) && Acked(at) <= j <= |rows|
    ensures Offset(rows, at) <= |Flat(rows[..j])|
    decreases j
  {
    if j > at.row {
      FlatSplits(rows, j - 1);
      if Acked(at) < j {
        OffsetMonotone(rows, at, j - 1);
      }
    }
  }

  // The row is acknowledged, discarded by the size cap, or what a reboot replays.
  predicate Accounted(w: World, k: nat) {
    k in w.dropped || Delivered(w.log, k) || StillPending(w, k)
  }

  lemma RunAccounts(w: World, steps: seq<Step>, k: nat)
    requires FilesOk(w) && LogOk(w) && SteadyRun(w, steps) && k < |Final(w, steps).history|
    ensures Accounted(Final(w, steps), k)
  {
    hide SteadyRun, Final, StillPending;
    RunKeeps(w, steps);
    var t := Final(w, steps);
    if k < t.base + t.reached {
      assert Covered(t);
    } else {
      hide LogOk;
      PendingAfterSaved(t, k);
    }
  }

  /** Over any run, every row that was ever spooled has been acknowledged, was discarded by the size cap, or is still
      in the file at or after the saved cursor. */
  lemma NoSpooledRowIsLost(steps: seq<Step>, k: nat)
    requires SteadyRun(Start(), steps) && k < |Final(Start(), steps).history|
    ensures var w := Final(Start(), steps); k in w.dropped || Delivered(w.log, k) || StillPending(w, k)
  {
    RunAccounts(Start(), steps, k);
  }

  /** Replay is byte-exact and in spool order: every acknowledged publish carried exactly the bytes of a spooled row,
      and within one boot each row goes out at most once, in the order it was spooled. */
  lemma ReplayIsExactAndInOrder(steps: seq<Step>)
    requires SteadyRun(Start(), steps)
    ensures var w := Final(Start(), steps);
            && (forall d :: d in w.log ==> d.row < |w.history| && d.bytes == w.history[d.row])
            && InOrder(w.log)
  {
    RunKeeps(Start(), steps);
    var w := Final(Start(), steps);
    forall d | d in w.log ensures d.row < |w.history| && d.bytes == w.history[d.row] {
      assert TrueToHistory(w, d);
    }
  }

  // --- What the cap measures ---

  // The bytes replay has yet to read: rows not acknowledged, and the newline of one that is.
  function PendingBytes(rows: seq<string>, at: At): nat {
    if Acked(at) <= |rows| then |Flat(rows[Acked(at)..])| + (if at.half then 1 else 0) else 0
  }

  lemma PendingIsTheRest(rows: seq<string>, at: At)
    requires On(rows, at)
    ensures |Flat(rows)| == Offset(rows, at) + PendingBytes(rows, at)
  {
    hide Flat, RowsOk;
    if at.half {
      FlatSplits(rows, at.row);
    } else {
      FlatOfConcat(rows[..at.row], rows[at.row..]);
      Rejoined(rows, at.row);
    }
  }

  // Where an append finds the file: as RAM has it, or as a boot with a card in place would load it.
  predicate Finds(w: World, mounted: bool) {
    Live(w) || mounted
  }

  // What an append finds once the spool is loaded.
  lemma LoadedIs(w: World, mounted: bool)
    requires FilesOk(w) && Finds(w, mounted)
    ensures var l, at := Load(w, mounted), if Live(w) then w.at else w.savedAt;
            && On(Rows(w), at) && Live(l)
            && l == w.(spool := SpoolState(w.spool.file, w.spool.saved, |w.spool.file|, Offset(Rows(w), at)), at := at)
            && |w.spool.file| - Offset(Rows(w), at) == PendingBytes(Rows(w), at)
  {
    var at := if Live(w) then w.at else w.savedAt;
    PendingIsTheRest(Rows(w), at);
    OffsetInFile(Rows(w), at);
    hide Offset, PendingBytes, RowsOk, On, Flat;
  }

  /** An append discards rows exactly when more than 50 MB of rows are not acknowledged, counting from where replay
      stands, and then discards exactly those that never were. Short of that the new row goes behind all others, and
      neither cursor moves; beyond it, the file starts over, as far as card and sidecar let it. */
  lemma CapMeasuresUnacknowledgedRows(w: World, row: string, a: AppendWorld)
    requires FilesOk(w) && Finds(w, a.mounted)
    ensures var t, at := After(w, Step.Append(row, a)), if Live(w) then w.at else w.savedAt;
            var line := if a.stored then row + "\n" else "";
            if PendingBytes(Rows(w), at) <= 52_428_800 then
              && t.dropped == w.dropped
              && t.spool == SpoolState(w.spool.file + line, w.spool.saved, |w.spool.file| + |line|, Offset(Rows(w), at))
            else
              && (forall k :: k in t.dropped <==> k in w.dropped || w.base + w.reached <= k < |w.history|)
              && t.spool.file == (if a.unlinked then "" else w.spool.file) + line
              && t.spool.size == |line| && t.spool.cursor == 0
              && t.spool.saved == (match a.sidecar
                                   case Written => Some(0)
                                   case Untouched => w.spool.saved
                                   case Lost => None)
  {
    LoadedIs(w, a.mounted);
    hide FilesOk, Load, Offset, PendingBytes, On, Rows, Live;
    NothingAfter(w.spool.file);
    NothingAfter("");
    NothingBefore(row + "\n");
  }

  // No append of the run finds more than 50 MB between the cursor and the end of the file.
  predicate StaysBelowCap(w: World, steps: seq<Step>)
    decreases |steps|
  {
    steps == [] ||
    (&& (steps[0].Append? && Finds(w, steps[0].a.mounted) ==>
           if Live(w) then w.spool.size - w.spool.cursor <= 52_428_800
           else |w.spool.file| - SavedCursor(w.spool) <= 52_428_800)
     && StaysBelowCap(After(w, steps[0]), steps[1..]))
  }

  /** Only the 50 MB cap discards rows. */
  lemma {:induction false} OnlyTheCapDiscards(w: World, steps: seq<Step>)
    requires StaysBelowCap(w, steps)
    ensures Final(w, steps).dropped == w.dropped
    decreases |steps|
  {
    hide Replay, Reached, Idle;
    if steps != [] {
      OnlyTheCapDiscards(After(w, steps[0]), steps[1..]);
    }
  }

  // --- How much a reboot sends again ---

  // The deliveries of boot `b` whose row had been delivered before.
  function Repeats(log: seq<Delivery>, b: nat): nat {
    if log == [] then 0
    else
      var m := |log| - 1;
      Repeats(log[..m], b) + if log[m].boot == b && Delivered(log[..m], log[m].row) then 1 else 0
  }

  function Max0(n: int): nat {
    if n > 0 then n else 0
  }

  function Least(a: nat, b: nat): nat {
    if a < b then a else b
  }

  // With every sidecar write succeeding, at most two acknowledged rows lie beyond the saved cursor.
  ghost predicate Bounded(w: World) {
    && w.reached <= Acked(w.savedAt) + REPLAY_PER_TICK
    && (Live(w) ==> w.at == w.savedAt)
    && (forall b: nat :: Repeats(w.log, b) <= REPLAY_PER_TICK)
    && Repeats(w.log, w.boot) + (if Live(w) then Max0(w.reached - Acked(w.at)) else 0) <= REPLAY_PER_TICK
    && (!Live(w) ==> Repeats(w.log, w.boot) == 0)
  }

  // Of the rows from `base` on, those below `top` and those in [first, last) have been delivered.
  ghost predicate Front(log: seq<Delivery>, base: nat, top: nat, first: nat, last: nat) {
    forall k: nat :: k >= base ==> (Delivered(log, k) <==> k < top || first <= k < last)
  }

  lemma LogFront(w: World, first: nat)
    requires FilesOk(w) && LogOk(w)
    ensures Front(w.log, w.base, w.base + w.reached, first, first)
  {
    forall k: nat | k >= w.base ensures Delivered(w.log, k) <==> k < w.base + w.reached {
      assert Covered(w);
      assert Delivered(w.log, k) ==> exists d :: d in w.log && d.row == k && InPlace(w, d);
    }
  }

  lemma DeliveredLast(log: seq<Delivery>, d: Delivery, k: nat)
    ensures Delivered(log + [d], k) <==> Delivered(log, k) || k == d.row
  {
    if Delivered(log, k) {
      var i :| 0 <= i < |log| && log[i].row == k;
      assert (log + [d])[i].row == k;
    }
    assert (log + [d])[|log|] == d;
  }

  lemma RepeatsOfOne(log: seq<Delivery>, d: Delivery, b: nat)
    ensures Repeats(log + [d], b) == Repeats(log, b) + if d.boot == b && Delivered(log, d.row) then 1 else 0
  {
    assert (log + [d])[..|log|] == log;
  }

  lemma OneMore(log: seq<Delivery>, sent: seq<string>, first: nat, n: nat, boot: nat)
    requires n < |sent|
    ensures log + Deliveries(first, sent[..n + 1], boot)
            == log + Deliveries(first, sent[..n], boot) + [Delivery(first + n, sent[n], boot)]
  {
  }

  // Sending n rows from `first` on repeats those that were acknowledged before.
  lemma {:induction false} RepeatsOfSends(log: seq<Delivery>, sent: seq<string>, n: nat, base: nat, top: nat,
                                          first: nat, boot: nat, b: nat)
    requires n <= |sent| && base <= first && Front(log, base, top, first, first)
    ensures var more := log + Deliveries(first, sent[..n], boot);
            && Repeats(more, b) == Repeats(log, b) + (if b == boot then Least(n, Max0(top - first)) else 0)
            && Front(more, base, top, first, first + n)
  {
    hide Delivered, Repeats;
    if n == 0 {
      assert log + Deliveries(first, sent[..0], boot) == log;
    } else {
      hide Deliveries;
      RepeatsOfSends(log, sent, n - 1, base, top, first, boot, b);
      var front := log + Deliveries(first, sent[..n - 1], boot);
      var d := Delivery(first + n - 1, sent[n - 1], boot);
      OneMore(log, sent, first, n - 1, boot);
      RepeatsOfOne(front, d, b);
      assert Front(front, base, top, first, first + n - 1);
      forall k: nat | k >= base
        ensures Delivered(front + [d], k) <==> k < top || first <= k < first + n
      {
        DeliveredLast(front, d, k);
      }
    }
  }

  lemma {:induction false} NoRepeats(log: seq<Delivery>, b: nat)
    requires forall d :: d in log ==> d.boot != b
    ensures Repeats(log, b) == 0
  {
    if log != [] {
      NoRepeats(log[..|log| - 1], b);
    }
  }

  lemma LoadBounded(w: World, mounted: bool)
    requires Bounded(w)
    ensures Bounded(Load(w, mounted))
  {
  }

  lemma SendsRepeats(w: World, t: World, first: nat, n: nat, b: nat)
    requires FilesOk(w) && LogOk(w) && Live(w) && Sends(w, t, first, n)
    ensures Repeats(t.log, b) == Repeats(w.log, b) + if b == w.boot then Least(n, Max0(w.reached - Acked(w.at))) else 0
  {
    LogFront(w, first);
    hide FilesOk, LogOk, Front, Repeats, Deliveries, Acked;
    var sent := w.history[first..first + n];
    assert sent[..n] == sent;
    RepeatsOfSends(w.log, sent, n, w.base, w.base + w.reached, first, w.boot, b);
  }

  lemma SendsBounded(w: World, t: World, first: nat, n: nat, b: nat)
    requires FilesOk(w) && LogOk(w) && Live(w) && Bounded(w) && Sends(w, t, first, n)
    ensures Repeats(t.log, b) <= REPLAY_PER_TICK
    ensures Repeats(t.log, w.boot) + Max0(t.reached - Acked(t.at)) <= REPLAY_PER_TICK
  {
    SendsRepeats(w, t, first, n, b);
    SendsRepeats(w, t, first, n, w.boot);
    assert Repeats(w.log, b) <= REPLAY_PER_TICK;
    hide FilesOk, LogOk, Repeats, Deliveries;
  }

  lemma ReplayBounded(w: World, acks: Acks, i: nat)
    requires FilesOk(w) && LogOk(w) && Live(w) && Bounded(w) && i <= REPLAY_PER_TICK
    ensures var t := Replayed(w, acks, i);
            && (forall b: nat :: Repeats(t.log, b) <= REPLAY_PER_TICK)
            && Repeats(t.log, t.boot) + Max0(t.reached - Acked(t.at)) <= REPLAY_PER_TICK
            && t.reached <= Acked(w.savedAt) + REPLAY_PER_TICK
  {
    var n := ReplaySends(w, acks, i);
    var t := Replayed(w, acks, i);
    var first := w.base + Acked(w.at);
    forall b: nat
      ensures Repeats(t.log, b) <= REPLAY_PER_TICK
    {
      SendsBounded(w, t, first, n, b);
    }
    SendsBounded(w, t, first, n, w.boot);
    hide FilesOk, LogOk, Replayed, Repeats, Deliveries;
  }

  lemma OffBounded(w: World)
    requires LogOk(w) && (forall b: nat :: Repeats(w.log, b) <= REPLAY_PER_TICK)
    requires w.reached <= Acked(w.savedAt) + REPLAY_PER_TICK
    ensures Bounded(Off(w))
  {
    forall d | d in w.log ensures d.boot != w.boot + 1 {
      assert InPlace(w, d);
    }
    NoRepeats(w.log, w.boot + 1);
  }

  // The sidecar is rewritten whenever a tick means to.
  predicate CursorSaves(step: Step) {
    step.Replays? ==> step.e.sidecar == Written
  }

  lemma SettleBounded(before: World, w: World, e: TickWorld)
    requires w.spool.cursor >= w.spool.size ==> CleanReset(w.spool, e.unlinked, e.sidecar)
    requires e.sidecar == Written && Live(w) && w.savedAt == before.savedAt == before.at
    requires forall b: nat :: Repeats(w.log, b) <= REPLAY_PER_TICK
    requires Repeats(w.log, w.boot) + Max0(w.reached - Acked(w.at)) <= REPLAY_PER_TICK
    ensures Bounded(Settled(before, w, e))
  {
    hide Repeats;
  }

  lemma TickBounded(w: World, e: TickWorld)
    requires FilesOk(w) && LogOk(w) && Bounded(w) && Steady(w, Replays(e)) && e.sidecar == Written
    ensures Bounded(AfterTick(w, e))
  {
    hide FilesOk, LogOk, Repeats, Settled, Deliveries, Replay, Reached;
    LoadKeeps(w, e.mounted);
    LoadBounded(w, e.mounted);
    var l := Load(w, e.mounted);
    if !Idle(l.spool, e) {
      ReplayBounded(l, e.acks, 0);
      SettleBounded(l, Replayed(l, e.acks, 0), e);
    }
  }

  lemma CutBounded(w: World, e: TickWorld, i: nat)
    requires FilesOk(w) && LogOk(w) && Bounded(w) && i <= REPLAY_PER_TICK
    ensures Bounded(AfterCutTick(w, e, i))
  {
    hide FilesOk, LogOk, Repeats, Deliveries, Replay, Reached, Off;
    LoadKeeps(w, e.mounted);
    LoadBounded(w, e.mounted);
    var l := Load(w, e.mounted);
    if Idle(l.spool, e) {
      OffBounded(l);
    } else {
      ReplayBounded(l, e.acks, i);
      ReplayKeepsLog(l, e.acks, i);
      OffBounded(Replayed(l, e.acks, i));
    }
  }

  lemma AppendBounded(w: World, row: string, a: AppendWorld)
    requires Bounded(w) && Steady(w, Step.Append(row, a))
    ensures Bounded(AfterAppend(w, row, a))
  {
    hide Repeats;
    LoadBounded(w, a.mounted);
  }

  lemma StepBounded(w: World, step: Step)
    requires FilesOk(w) && LogOk(w) && Bounded(w) && Steady(w, step) && CursorSaves(step)
    ensures Bounded(After(w, step))
  {
    hide FilesOk, LogOk, AfterTick, AfterAppend, AfterCutTick, Bounded, Off;
    match step {
      case Append(row, a) => AppendBounded(w, row, a);
      case Replays(e) => TickBounded(w, e);
      case CutShort(e, i) => CutBounded(w, e, i);
      case PowerCut => BoundedOff(w);
    }
  }

  lemma BoundedOff(w: World)
    requires LogOk(w) && Bounded(w)
    ensures Bounded(Off(w))
  {
    OffBounded(w);
  }

  lemma {:induction false} RunBounded(w: World, steps: seq<Step>)
    requires FilesOk(w) && LogOk(w) && Bounded(w) && SteadyRun(w, steps)
    requires forall step :: step in steps ==> CursorSaves(step)
    ensures Bounded(Final(w, steps))
    decreases |steps|
  {
    hide FilesOk, LogOk, Bounded, After, Steady;
    if steps != [] {
      StepKeeps(w, steps[0]);
      StepBounded(w, steps[0]);
      RunBounded(After(w, steps[0]), steps[1..]);
    }
  }

  /** With every cursor write succeeding, no boot sends more than two rows that an earlier boot already got
      acknowledged, wherever power was lost. */
  lemma RebootRepeatsAtMostTwo(steps: seq<Step>, b: nat)
    requires SteadyRun(Start(), steps) && forall step :: step in steps ==> CursorSaves(step)
    ensures Repeats(Final(Start(), steps).log, b) <= 2
  {
    RunBounded(Start(), steps);
  }

  // --- The runs are the datalog task's ---

  lemma SettledIs(l: World, to: At, p: Progress, e: TickWorld)
    requires p.advanced <==> to != l.at
    ensures var t := l.spool.(cursor := p.cursor);
            var w := Settled(l, Sending(l, to, p), e);
            && w.spool == (if t.cursor >= t.size then Emptied(t, e.unlinked, e.sidecar)
                           else if p.advanced then CursorSaved(t, e.sidecar) else t)
            && w.log == l.log + Deliveries(l.base + Acked(l.at), p.sent, l.boot)
  {
    hide Emptied, CursorSaved, Deliveries;
  }

  lemma AdvancesWhenMoved(l: World, acks: Acks)
    requires Truthful(l) && Live(l)
    ensures Replay(l.spool.file, l.spool.cursor, Progress(l.spool.cursor, [], false), acks, 0).advanced
            <==> Reached(Rows(l), l.at, acks, 0) != l.at
  {
    SendsNextRows(l, acks, 0);
  }

  lemma NothingSent(l: World)
    ensures l.log + Deliveries(l.base + Acked(l.at), [], l.boot) == l.log
  {
  }

  lemma TickIsTheTasks(w: World, e: TickWorld)
    requires Truthful(w)
    ensures AfterTick(w, e).spool == Tick(w.spool, e).after
    ensures AfterTick(w, e).log
            == w.log + Deliveries(w.base + Acked(Load(w, e.mounted).at), Tick(w.spool, e).sent, w.boot)
  {
    hide Deliveries, Replay, Reached, Truthful, Emptied, CursorSaved, Settled, Sending, Acked, Rows;
    LoadIsTruthful(w, e.mounted);
    var l := Load(w, e.mounted);
    if Idle(l.spool, e) {
      NothingSent(l);
    } else {
      AdvancesWhenMoved(l, e.acks);
      var p := Replay(l.spool.file, l.spool.cursor, Progress(l.spool.cursor, [], false), e.acks, 0);
      SettledIs(l, Reached(Rows(l), l.at, e.acks, 0), p, e);
    }
  }

  /** The spool of a run is at every step the one the datalog task's own functions compute, and what a tick adds to the
      log is what the tick sent. */
  lemma RunsFollowTheTask(w: World, step: Step)
    requires Truthful(w)
    ensures match step
            case Append(row, a) => After(w, step).spool == Appended(w.spool, row, a) && After(w, step).log == w.log
            case Replays(e) =>
              && After(w, step).spool == Tick(w.spool, e).after
              && After(w, step).log
                 == w.log + Deliveries(w.base + Acked(Load(w, e.mounted).at), Tick(w.spool, e).sent, w.boot)
            case CutShort(_, _) => After(w, step).spool == SpoolState(w.spool.file, w.spool.saved, -1, 0)
            case PowerCut =>
              After(w, step).spool == SpoolState(w.spool.file, w.spool.saved, -1, 0) && After(w, step).log == w.log
  {
    hide Truthful, Tick, Replay, Reached, Deliveries;
    match step {
      case Replays(e) => hide AfterTick; TickIsTheTasks(w, e);
      case _ =>
    }
  }
}
