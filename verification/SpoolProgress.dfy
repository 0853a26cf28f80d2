/** With card and broker up, the backlog goes out. */
module SpoolProgress {
  import opened Options
  import opened TextLines
  import opened Spool
  import opened SpoolRows
  import opened SpoolRuns

  const ALL_WELL := TickWorld(true, true, true, [true, true], true, Written)

  function Ticks(n: nat): seq<Step> {
    if n == 0 then [] else [Replays(ALL_WELL)] + Ticks(n - 1)
  }

  // Two rounds get past at least one row.
  lemma RowGoesOut(rows: seq<string>, at: At)
    requires On(rows, at) && at.row < |rows|
    ensures var to := Reached(rows, at, ALL_WELL.acks, 0); at.row < to.row <= |rows| && On(rows, to)
  {
    var next := Next(rows, at);
    assert Reached(rows, at, ALL_WELL.acks, 0) == Reached(rows, next, ALL_WELL.acks, 1);
    assert next.row < |rows| ==>
        Reached(rows, next, ALL_WELL.acks, 1) == Reached(rows, Next(rows, next), ALL_WELL.acks, 2) == Next(rows, next);
  }

  // The rows of the file that replay has not passed.
  function Backlog(w: World): nat {
    var at := if Live(w) then w.at else w.savedAt;
    if at.row <= |Rows(w)| then |Rows(w)| - at.row else 0
  }

  lemma ReplayGoesOn(l: World)
    requires FilesOk(l) && Live(l) && l.at.row < |Rows(l)|
    ensures var r := Replayed(l, ALL_WELL.acks, 0);
            && !Idle(l.spool, ALL_WELL) && FilesOk(r) && Live(r) && l.at.row < r.at.row
            && r.base == l.base && r.history == l.history && r.dropped == l.dropped
  {
    OffsetInFile(Rows(l), l.at);
    RowGoesOut(Rows(l), l.at);
    ReplayKeepsFiles(l, ALL_WELL.acks, 0);
    hide Flat, RowsOk, Replay, Reached, Offset, On;
  }

  // Past the last row is the end of the file.
  lemma EndOfRows(w: World)
    requires FilesOk(w) && Live(w) && w.at.row == |Rows(w)|
    ensures w.spool.cursor == w.spool.size
  {
    assert Rows(w)[..w.at.row] == Rows(w);
  }

  lemma SettlesDrained(l: World, r: World)
    requires FilesOk(r) && Live(r)
    ensures var t := Settled(l, r, ALL_WELL);
            && t.history == r.history && t.dropped == r.dropped
            && (r.at.row == |Rows(r)| ==> t.spool.file == "" && Backlog(t) == 0 && t.base == |t.history|)
            && (r.at.row < |Rows(r)| ==> Backlog(t) == |Rows(r)| - r.at.row)
  {
    OffsetInFile(Rows(r), r.at);
    if r.at.row == |Rows(r)| {
      EndOfRows(r);
    }
    hide Flat, RowsOk, Offset;
  }

  lemma TickWorksOff(w: World)
    requires FilesOk(w) && LogOk(w) && Backlog(w) > 0
    ensures var t := After(w, Replays(ALL_WELL));
            && Steady(w, Replays(ALL_WELL)) && FilesOk(t) && LogOk(t)
            && t.history == w.history && t.dropped == w.dropped && Backlog(t) < Backlog(w)
            && (Backlog(t) == 0 ==> t.spool.file == "" && t.base == |t.history|)
  {
    assert Steady(w, Replays(ALL_WELL));
    StepKeeps(w, Replays(ALL_WELL));
    LoadKeeps(w, true);
    var l := Load(w, true);
    assert Rows(l) == Rows(w) && l.at.row < |Rows(l)|;
    ReplayGoesOn(l);
    var r := Replayed(l, ALL_WELL.acks, 0);
    assert Rows(r) == Rows(l) && r.at.row <= |Rows(r)|;
    SettlesDrained(l, r);
    assert After(w, Replays(ALL_WELL)) == Settled(l, r, ALL_WELL);
    hide FilesOk, LogOk, Settled, Replayed, After, Steady;
  }

  lemma {:induction false} BacklogShrinks(w: World) returns (n: nat)
    requires FilesOk(w) && LogOk(w)
    ensures n <= Backlog(w) && SteadyRun(w, Ticks(n))
    ensures var t := Final(w, Ticks(n));
            && FilesOk(t) && LogOk(t) && t.history == w.history && t.dropped == w.dropped && Backlog(t) == 0
            && (Backlog(w) > 0 ==> t.spool.file == "")
    decreases Backlog(w)
  {
    hide FilesOk, LogOk, After, Steady, Backlog;
    if Backlog(w) == 0 {
      n := 0;
    } else {
      TickWorksOff(w);
      var t := After(w, Replays(ALL_WELL));
      n := BacklogShrinks(t);
      n := n + 1;
      assert Ticks(n)[1..] == Ticks(n - 1);
    }
  }

  lemma NoBacklogMeansSent(w: World, k: nat)
    requires FilesOk(w) && LogOk(w) && Backlog(w) == 0 && k < |w.history|
    ensures k in w.dropped || Delivered(w.log, k)
  {
    assert Covered(w);
    hide Flat, RowsOk;
  }

  /** Whatever happened before, once card and broker work the spool drains: after at most as many ticks as rows are
      left, each row ever spooled has been acknowledged, unless the cap discarded it, and the file is gone. */
  lemma BacklogGoesOut(before: seq<Step>) returns (n: nat)
    requires SteadyRun(Start(), before)
    ensures var w := Final(Start(), before);
            var t := Final(w, Ticks(n));
            && n <= |Rows(w)| && SteadyRun(w, Ticks(n)) && t.history == w.history && t.dropped == w.dropped
            && (forall k: nat :: k < |t.history| ==> k in t.dropped || Delivered(t.log, k))
            && (Backlog(w) > 0 ==> t.spool.file == "")
  {
    var w := Final(Start(), before);
    assert Rows(Start()) == [];
    RunKeeps(Start(), before);
    assert Backlog(w) <= |Rows(w)|;
    n := BacklogShrinks(w);
    var t := Final(w, Ticks(n));
    hide Final, SteadyRun, FilesOk, LogOk, Backlog;
    forall k: nat | k < |t.history| ensures k in t.dropped || Delivered(t.log, k) {
      NoBacklogMeansSent(t, k);
    }
  }
}
