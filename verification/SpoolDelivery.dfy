/** The spool's replay over the publish protocol: the answers a tick gets are the results of its publishes. */
module SpoolDelivery {
  import opened Options
  import opened Spool
  import opened SpoolRows
  import opened SpoolRuns
  import MqttAck

  // What each message was made for: one publish of one spooled row in one boot, or something else.
  type Purpose = MqttAck.Message -> Option<Delivery>

  // The publish of this row in this boot has returned success.
  ghost predicate Succeeded(t: MqttAck.State, made: Purpose, d: Delivery) {
    exists m: MqttAck.Message :: MqttAck.Result(m, true) in t.results && made(m) == Some(d)
  }

  // The broker has a message made for row k, with the bytes of that row. Rows that read alike have messages of their
  // own.
  ghost predicate AtBroker(t: MqttAck.State, made: Purpose, k: nat, row: string) {
    exists m: MqttAck.Message ::
      m in t.received && made(m).Some? && made(m).value.row == k && made(m).value.bytes == row
  }

  // In the rounds of one tick, each positive answer is the success of publishing the row that round has read. The next
  // row to be read is the one numbered `next`.
  ghost predicate Answered(file: string, pos: nat, acks: Acks, i: nat, t: MqttAck.State, made: Purpose,
                           next: nat, boot: nat)
    decreases REPLAY_PER_TICK - i
  {
    var piece := FGets(file, pos);
    var row := Row(piece);
    i < REPLAY_PER_TICK && piece != "" && (row == "" || acks[i]) ==>
      && (row != "" ==> Succeeded(t, made, Delivery(next, row, boot)))
      && Answered(file, pos + |piece|, acks, i + 1, t, made, if row == "" then next else next + 1, boot)
  }

  ghost predicate AllSucceeded(t: MqttAck.State, made: Purpose, first: nat, sent: seq<string>, boot: nat) {
    forall d :: d in Deliveries(first, sent, boot) ==> Succeeded(t, made, d)
  }

  lemma OneMoreSucceeded(t: MqttAck.State, made: Purpose, first: nat, sent: seq<string>, row: string, boot: nat)
    requires AllSucceeded(t, made, first, sent, boot) && Succeeded(t, made, Delivery(first + |sent|, row, boot))
    ensures AllSucceeded(t, made, first, sent + [row], boot)
  {
    assert Deliveries(first, sent + [row], boot)
        == Deliveries(first, sent, boot) + [Delivery(first + |sent|, row, boot)];
    hide Succeeded;
  }

  lemma {:induction false} SentMeansSucceeded(file: string, pos: nat, p: Progress, acks: Acks, i: nat,
                                              t: MqttAck.State, made: Purpose, first: nat, boot: nat)
    requires Answered(file, pos, acks, i, t, made, first + |p.sent|, boot)
    requires AllSucceeded(t, made, first, p.sent, boot)
    ensures AllSucceeded(t, made, first, Replay(file, pos, p, acks, i).sent, boot)
    decreases REPLAY_PER_TICK - i
  {
    hide Succeeded, FGets, StrLen, Row, AllSucceeded;
    ReplayUnfolds(file, pos, p, acks, i);
    if i < REPLAY_PER_TICK && Round(file, pos, p, acks[i]).Some? {
      var next := Round(file, pos, p, acks[i]).value;
      var row := Row(FGets(file, pos));
      if row != "" {
        OneMoreSucceeded(t, made, first, p.sent, row, boot);
      }
      SentMeansSucceeded(file, pos + |FGets(file, pos)|, next, acks, i + 1, t, made, first, boot);
    }
  }

  // The rounds of a tick of run state w, from round i on.
  ghost predicate RoundsAnswered(w: World, acks: Acks, i: nat, t: MqttAck.State, made: Purpose) {
    Answered(w.spool.file, w.spool.cursor, acks, i, t, made, w.base + Acked(w.at), w.boot)
  }

  ghost predicate StepAnswered(w: World, step: Step, t: MqttAck.State, made: Purpose) {
    match step
    case Replays(e) => var l := Load(w, e.mounted); Idle(l.spool, e) || RoundsAnswered(l, e.acks, 0, t, made)
    case CutShort(e, i) => var l := Load(w, e.mounted); Idle(l.spool, e) || RoundsAnswered(l, e.acks, i, t, made)
    case _ => true
  }

  ghost predicate RunAnswered(w: World, steps: seq<Step>, t: MqttAck.State, made: Purpose)
    decreases |steps|
  {
    steps == [] || (StepAnswered(w, steps[0], t, made) && RunAnswered(After(w, steps[0]), steps[1..], t, made))
  }

  ghost predicate LogSucceeded(log: seq<Delivery>, t: MqttAck.State, made: Purpose) {
    forall d :: d in log ==> Succeeded(t, made, d)
  }

  lemma SendingSucceeded(w: World, to: At, p: Progress, t: MqttAck.State, made: Purpose)
    requires LogSucceeded(w.log, t, made) && AllSucceeded(t, made, w.base + Acked(w.at), p.sent, w.boot)
    ensures LogSucceeded(Sending(w, to, p).log, t, made)
  {
    hide Succeeded, Deliveries;
  }

  lemma NothingSucceeded(t: MqttAck.State, made: Purpose, first: nat, boot: nat)
    ensures AllSucceeded(t, made, first, [], boot)
  {
    assert Deliveries(first, [], boot) == [];
  }

  lemma ReplayedSucceeded(w: World, acks: Acks, i: nat, t: MqttAck.State, made: Purpose)
    requires LogSucceeded(w.log, t, made) && RoundsAnswered(w, acks, i, t, made)
    ensures LogSucceeded(Replayed(w, acks, i).log, t, made)
  {
    hide Succeeded, Answered, Replay, Reached, AllSucceeded, LogSucceeded, Sending, Rows, Acked;
    var first := w.base + Acked(w.at);
    var p := Progress(w.spool.cursor, [], false);
    NothingSucceeded(t, made, first, w.boot);
    SentMeansSucceeded(w.spool.file, w.spool.cursor, p, acks, i, t, made, first, w.boot);
    SendingSucceeded(w, Reached(Rows(w), w.at, acks, i), Replay(w.spool.file, w.spool.cursor, p, acks, i), t, made);
  }

  lemma StepSucceeded(w: World, step: Step, t: MqttAck.State, made: Purpose)
    requires LogSucceeded(w.log, t, made) && StepAnswered(w, step, t, made)
    ensures LogSucceeded(After(w, step).log, t, made)
  {
    hide LogSucceeded, RoundsAnswered, Replayed;
    match step {
      case Replays(e) =>
        var l := Load(w, e.mounted);
        if !Idle(l.spool, e) {
          ReplayedSucceeded(l, e.acks, 0, t, made);
        }
      case CutShort(e, i) =>
        var l := Load(w, e.mounted);
        if !Idle(l.spool, e) {
          ReplayedSucceeded(l, e.acks, i, t, made);
        }
      case _ =>
    }
  }

  lemma {:induction false} RunSucceeded(w: World, steps: seq<Step>, t: MqttAck.State, made: Purpose)
    requires LogSucceeded(w.log, t, made) && RunAnswered(w, steps, t, made)
    ensures LogSucceeded(Final(w, steps).log, t, made)
    decreases |steps|
  {
    hide LogSucceeded, StepAnswered, After;
    if steps != [] {
      StepSucceeded(w, steps[0], t, made);
      RunSucceeded(After(w, steps[0]), steps[1..], t, made);
    }
  }

  /** The cursor never passes a row the broker lacks. Over any run of the spool whose answers are the results of
      publishes in any run of the publish protocol that sets no stale bit, every spooled row is at the broker in a
      message of its own, was discarded by the size cap, or is still in the file at or after the saved cursor. */
  lemma CursorNeverPassesTheBroker(steps: seq<Step>, publishers: nat, publishes: seq<MqttAck.Step>, made: Purpose,
                                   k: nat)
    requires SteadyRun(Start(), steps) && k < |Final(Start(), steps).history|
    requires MqttAck.Run(MqttAck.Start(publishers), publishes)
    requires MqttAck.NoStaleBit(MqttAck.Start(publishers), publishes)
    requires RunAnswered(Start(), steps, MqttAck.Final(MqttAck.Start(publishers), publishes), made)
    ensures var w := Final(Start(), steps);
            var t := MqttAck.Final(MqttAck.Start(publishers), publishes);
            AtBroker(t, made, k, w.history[k]) || k in w.dropped || StillPending(w, k)
  {
    hide SteadyRun, RunAnswered, StillPending, MqttAck.Run, MqttAck.Final, MqttAck.NoStaleBit;
    var w := Final(Start(), steps);
    var t := MqttAck.Final(MqttAck.Start(publishers), publishes);
    RunSucceeded(Start(), steps, t, made);
    NoSpooledRowIsLost(steps, k);
    ReplayIsExactAndInOrder(steps);
    MqttAck.SuccessMeansDelivered(publishers, publishes);
    hide Final;
    if Delivered(w.log, k) {
      var i :| 0 <= i < |w.log| && w.log[i].row == k;
      assert w.log[i] in w.log && Succeeded(t, made, w.log[i]);
      var m: MqttAck.Message :| MqttAck.Result(m, true) in t.results && made(m) == Some(w.log[i]);
      assert m in t.received;
    }
  }
}
