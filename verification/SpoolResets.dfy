/** What a spool that starts over without its two file operations succeeding costs: exactly then can a row get lost. */
module SpoolResets {
  import opened Options
  import opened TextLines
  import opened Spool
  import opened SpoolRows
  import opened SpoolRuns

  // However the run goes on, as long as later resets are clean, no row ever spooled gets lost.
  ghost predicate AlwaysAccounted(w: World) {
    forall steps, k: nat :: SteadyRun(w, steps) && k < |Final(w, steps).history| ==> Accounted(Final(w, steps), k)
  }

  ghost predicate SafeThroughout(w: World, steps: seq<Step>)
    decreases |steps|
  {
    AlwaysAccounted(w) && (steps == [] || SafeThroughout(After(w, steps[0]), steps[1..]))
  }

  // Rows are what the CSV builder makes, and a tick has two rounds; nothing is said about card or broker.
  predicate WellFormed(step: Step) {
    match step
    case Append(row, _) => RowOk(row)
    case CutShort(_, i) => i <= REPLAY_PER_TICK
    case _ => true
  }

  // --- Clean resets keep every row ---

  lemma KeptIsAlwaysAccounted(w: World)
    requires FilesOk(w) && LogOk(w)
    ensures AlwaysAccounted(w)
  {
    hide FilesOk, LogOk, SteadyRun, Final, Accounted;
    forall steps, k: nat | SteadyRun(w, steps) && k < |Final(w, steps).history|
      ensures Accounted(Final(w, steps), k)
    {
      RunAccounts(w, steps, k);
    }
  }

  // --- An unclean reset loses one ---

  // Nothing has happened to the rows from k on.
  predicate Untold(w: World, k: nat) {
    (forall d :: d in w.log ==> d.row < k) && (forall j :: j in w.dropped ==> j < k)
  }

  // Row k starts the file, but a reboot would start behind it.
  predicate Skipped(w: World, k: nat) {
    Untold(w, k) && w.base == k < |w.history| && SavedCursor(w.spool) > 0
  }

  // Row k is in the file, behind old rows that are longer than what RAM takes for the size of the file.
  predicate Hidden(w: World, k: nat) {
    && Untold(w, k) && Truthful(w) && Live(w)
    && w.base <= k < |w.history| && !w.at.half
    && w.spool.cursor < w.spool.size <= |Flat(w.history[w.base..k])|
  }

  predicate Loses(w: World, steps: seq<Step>, k: nat) {
    SteadyRun(w, steps) && k < |Final(w, steps).history| && !Accounted(Final(w, steps), k)
  }

  lemma OneStep(w: World, step: Step)
    ensures Final(w, [step]) == After(w, step)
    ensures SteadyRun(w, [step]) <==> Steady(w, step)
  {
    hide After, Steady;
    assert [step][1..] == [];
  }

  lemma Leads(w: World, step: Step, steps: seq<Step>, k: nat)
    requires Steady(w, step) && Loses(After(w, step), steps, k)
    ensures Loses(w, [step] + steps, k)
  {
    hide After, Steady, Accounted;
    assert ([step] + steps)[1..] == steps;
  }

  lemma SkippedIsLost(w: World, k: nat)
    requires Skipped(w, k)
    ensures Loses(w, [PowerCut], k)
  {
    OneStep(w, PowerCut);
    assert w.history[k..k] == [];
    hide SteadyRun, Final;
  }

  // Everything works, but the broker answers only one publish.
  const ONE_ACK := TickWorld(true, true, true, [true, false], true, Written)

  lemma SingleAckMovesOneRow(rows: seq<string>, at: At)
    requires On(rows, at) && !at.half && at.row < |rows|
    ensures Reached(rows, at, ONE_ACK.acks, 0) == At(at.row + 1, false)
  {
    var next := Next(rows, at);
    assert Reached(rows, at, ONE_ACK.acks, 0) == Reached(rows, next, ONE_ACK.acks, 1);
  }

  // The tick goes one row on, still before row k.
  lemma HiddenTick(w: World, k: nat)
    requires Hidden(w, k)
    ensures var r := Replayed(w, ONE_ACK.acks, 0);
            && !Idle(w.spool, ONE_ACK) && r.at == At(w.at.row + 1, false) && r.at.row <= k - w.base
            && r.spool.file == w.spool.file && r.spool.size == w.spool.size
            && r.base == w.base && r.history == w.history && Untold(r, k)
            && Live(r) && On(Rows(r), r.at) && r.spool.cursor == Offset(Rows(r), r.at)
  {
    var rows, n := Rows(w), w.at.row;
    assert rows[..k - w.base] == w.history[w.base..k];
    if n >= k - w.base {
      OffsetMonotone(rows, At(k - w.base, false), n);
    }
    SingleAckMovesOneRow(rows, w.at);
    SendsNextRows(w, ONE_ACK.acks, 0);
    hide Replay, Reached, Flat, RowOk;
  }

  // A tick hides the row no longer only by passing the size; then the file goes, with the row still in it.
  lemma HiddenSettles(w: World, k: nat)
    requires Hidden(w, k)
    ensures Steady(w, Replays(ONE_ACK)) && w.base + w.at.row < k
    ensures var t := After(w, Replays(ONE_ACK));
            || (Hidden(t, k) && t.base == w.base && t.at.row == w.at.row + 1)
            || (Untold(t, k) && k < t.base <= |t.history|)
  {
    HiddenTick(w, k);
    var r := Replayed(w, ONE_ACK.acks, 0);
    hide Replayed, Reached, Flat, RowsOk, On, Untold, Offset;
    assert AfterTick(w, ONE_ACK) == Settled(w, r, ONE_ACK);
  }

  lemma PastIsLost(w: World, k: nat)
    requires Untold(w, k) && k < w.base <= |w.history|
    ensures Loses(w, [], k)
  {
    assert Final(w, []) == w && SteadyRun(w, []);
    hide Flat, RowOk;
  }

  lemma {:induction false} HiddenIsLost(w: World, k: nat, left: nat) returns (steps: seq<Step>)
    requires Hidden(w, k) && w.base + w.at.row + left == k
    ensures Loses(w, steps, k)
    decreases left
  {
    hide *;
    HiddenSettles(w, k);
    var t := After(w, Replays(ONE_ACK));
    if Hidden(t, k) && t.base == w.base && t.at.row == w.at.row + 1 {
      steps := HiddenIsLost(t, k, left - 1);
    } else {
      PastIsLost(t, k);
      steps := [];
    }
    Leads(w, Replays(ONE_ACK), steps, k);
    steps := [Replays(ONE_ACK)] + steps;
  }

  // --- From the unclean reset to there ---

  lemma StandsAtStart(w: World)
    requires Truthful(w)
    ensures Offset(Rows(w), START) == 0 && On(Rows(w), START)
  {
    assert Rows(w)[..0] == [];
  }

  // The log knows rows that have been spooled.
  lemma AllUntold(w: World)
    requires LogOk(w) && w.base <= |w.history|
    ensures Untold(w, |w.history|)
  {
    forall d | d in w.log ensures d.row < |w.history| {
      assert TrueToHistory(w, d);
    }
  }

  // A state right after starting over: RAM is at zero, but the file or the sidecar is not.
  predicate HalfReset(w: World, n: nat) {
    && Untold(w, n) && |w.history| == n && w.spool.size == 0 && w.spool.cursor == 0
    && if w.base == n then SavedCursor(w.spool) > 0
       else Truthful(w) && w.base < n && w.at == START
  }

  lemma ResetIsHalf(v: World, unlinked: bool, sidecar: Write)
    requires FilesOk(v) && LogOk(v) && Live(v) && v.spool.file != "" && !CleanReset(v.spool, unlinked, sidecar)
    ensures HalfReset(StartOver(v, unlinked, sidecar), |v.history|)
  {
    AllUntold(v);
    var t := StartOver(v, unlinked, sidecar);
    if !unlinked {
      assert Rows(v) != [];
      assert Rows(t) == Rows(v);
      StandsAtStart(v);
    }
    hide Flat, RowsOk, On, Offset;
  }

  // A row no longer than the rows before it, stored after such a reset, will be lost.
  lemma StoredIsSkippedOrHidden(w: World, row: string)
    requires HalfReset(w, |w.history|) && RowOk(row)
    requires w.base < |w.history| ==> |row| < |w.spool.file|
    ensures var t := Stored(w, row); Skipped(t, |w.history|) || (Hidden(t, |w.history|) && t.at.row == 0)
  {
    var t, n := Stored(w, row), |w.history|;
    if w.base < n {
      assert Rows(t) == Rows(w) + [row];
      FlatOfConcat(Rows(w), [row]);
      FlatOne(row);
      StandsAtStart(w);
      assert Rows(t)[..0] == [];
      assert t.history[w.base..n] == Rows(w);
      hide Flat, RowOk;
    }
  }

  lemma SkippedOrHiddenIsLost(w: World, k: nat) returns (steps: seq<Step>)
    requires Skipped(w, k) || (Hidden(w, k) && w.at.row == 0)
    ensures Loses(w, steps, k)
  {
    if Skipped(w, k) {
      SkippedIsLost(w, k);
      steps := [PowerCut];
    } else {
      steps := HiddenIsLost(w, k, k - w.base);
    }
  }

  const ALL_WORKS := AppendWorld(true, true, Written, true)

  // If no row was stored by the step that started over, the next one is.
  lemma HalfResetLoses(w: World) returns (steps: seq<Step>)
    requires HalfReset(w, |w.history|)
    ensures Loses(w, steps, |w.history|)
  {
    var next := Step.Append("x", ALL_WORKS);
    assert RowOk("x");
    if w.base < |w.history| {
      FlatSplits(Rows(w), 0);
      assert Rows(w)[0] in w.history && RowOk(Rows(w)[0]);
    }
    StoredIsSkippedOrHidden(w, "x");
    assert Steady(w, next) && After(w, next) == Stored(w, "x");
    hide *;
    steps := SkippedOrHiddenIsLost(Stored(w, "x"), |w.history|);
    Leads(w, next, steps, |w.history|);
    steps := [next] + steps;
  }

  lemma LossRefutes(w: World, steps: seq<Step>, k: nat)
    requires Loses(w, steps, k)
    ensures !AlwaysAccounted(w)
  {
  }

  lemma UncleanDrainLoses(w: World, e: TickWorld)
    requires FilesOk(w) && LogOk(w) && !Steady(w, Replays(e))
    ensures !AlwaysAccounted(AfterTick(w, e))
  {
    LoadKeeps(w, e.mounted);
    var l := Load(w, e.mounted);
    ReplayKeepsFiles(l, e.acks, 0);
    ReplayKeepsLog(l, e.acks, 0);
    var r := Replayed(l, e.acks, 0);
    var t := StartOver(r, e.unlinked, e.sidecar);
    assert AfterTick(w, e) == t && r.spool.file == w.spool.file != "";
    hide Replayed, FilesOk, LogOk;
    ResetIsHalf(r, e.unlinked, e.sidecar);
    hide *;
    var steps := HalfResetLoses(t);
    LossRefutes(t, steps, |t.history|);
  }

  lemma ReadyToLose(w: World, row: string, stored: bool)
    requires HalfReset(w, |w.history|) && RowOk(row)
    requires w.base < |w.history| ==> |row| < |w.spool.file|
    ensures !AlwaysAccounted(if stored then Stored(w, row) else w)
  {
    hide *;
    if stored {
      StoredIsSkippedOrHidden(w, row);
      var steps := SkippedOrHiddenIsLost(Stored(w, row), |w.history|);
      LossRefutes(Stored(w, row), steps, |w.history|);
    } else {
      var steps := HalfResetLoses(w);
      LossRefutes(w, steps, |w.history|);
    }
  }

  lemma UncleanCapLoses(w: World, row: string, a: AppendWorld)
    requires FilesOk(w) && LogOk(w) && RowOk(row) && !Steady(w, Step.Append(row, a))
    ensures !AlwaysAccounted(AfterAppend(w, row, a))
  {
    LoadKeeps(w, a.mounted);
    var l := Load(w, a.mounted);
    ResetIsHalf(l, a.unlinked, a.sidecar);
    var r, n := Room(l, a), |w.history|;
    assert HalfReset(r, n) && |row| < |l.spool.file|;
    var t := AfterAppend(w, row, a);
    assert t == if a.stored then Stored(r, row) else r;
    hide *;
    ReadyToLose(r, row, a.stored);
  }

  // --- Exactly when rows are safe ---

  lemma StepIsSafeIff(w: World, step: Step)
    requires FilesOk(w) && LogOk(w) && WellFormed(step)
    ensures AlwaysAccounted(After(w, step)) <==> Steady(w, step)
  {
    hide FilesOk, LogOk, AfterTick, AfterAppend, AfterCutTick, AlwaysAccounted, Drains, RowOk;
    if Steady(w, step) {
      StepKeeps(w, step);
      KeptIsAlwaysAccounted(After(w, step));
    } else {
      match step {
        case Append(row, a) => UncleanCapLoses(w, row, a);
        case Replays(e) => UncleanDrainLoses(w, e);
      }
    }
  }

  lemma {:induction false} RunIsSafeIff(w: World, steps: seq<Step>)
    requires FilesOk(w) && LogOk(w) && forall step :: step in steps ==> WellFormed(step)
    ensures SafeThroughout(w, steps) <==> SteadyRun(w, steps)
    decreases |steps|
  {
    hide FilesOk, LogOk, AlwaysAccounted, WellFormed, Steady, After;
    KeptIsAlwaysAccounted(w);
    if steps != [] {
      StepIsSafeIff(w, steps[0]);
      if Steady(w, steps[0]) {
        StepKeeps(w, steps[0]);
        RunIsSafeIff(After(w, steps[0]), steps[1..]);
      }
    }
  }

  /** Every row ever spooled is safe at every moment of a run, and stays so as long as later resets are clean, if and
      only if each time the spool started over in that run, the unlink worked and the sidecar did not keep an old
      cursor. From any other reset there is a way on, with a card that works, that loses a row: an old cursor skips the
      next row after a reboot; a failed unlink leaves the old rows in front of the next row, and once a few of them have
      been sent again the file goes, and that row with it, in the same boot. */
  lemma RowsAreSafeIff(steps: seq<Step>)
    requires forall step :: step in steps ==> WellFormed(step)
    ensures SafeThroughout(Start(), steps) <==> SteadyRun(Start(), steps)
  {
    assert Rows(Start()) == [];
    RunIsSafeIff(Start(), steps);
  }
}
