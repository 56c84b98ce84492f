/** What the reporter of src/utils/clients.ts achieves: idle agreement, convergence, worker changes. */
module ReporterProgress {
  import opened Sequences
  import opened Reporter

  lemma {:induction false} RunAppend(w: World, a: seq<Step>, b: seq<Step>, batch: BatchSize)
    ensures Run(w, a + b, batch) == Run(Run(w, a, batch), b, batch)
  {
    if b == [] {
      assert a + b == a;
    } else {
      var n := |b| - 1;
      RunAppend(w, a, b[..n], batch);
      assert (a + b)[..|a| + n] == a + b[..n];
    }
  }

  // ---------------------------------------------------------------------------------------
  // Agreement when idle
  // ---------------------------------------------------------------------------------------

  /**
   Whenever no round is running, every target is confirmed, and the remote table holds the target
   of a device exactly when no answer to a change of it was lost without a later request for it.
   */
  lemma IdleAgreement(remote: map<Uuid, bool>, steps: seq<Step>, batch: BatchSize, u: Uuid)
    ensures var w := Run(Start(remote), steps, batch);
            !w.s.reporting && u in w.s.devices ==>
              && w.s.devices[u].Settled()
              && ((u in w.remote && w.remote[u] == w.s.devices[u].targetConnected) <==> !Stale(remote, steps, batch, u))
  {
    Reachable(remote, steps, batch);
    RemoteFollows(remote, steps, batch, u);
  }

  predicate Lossless(steps: seq<Step>) {
    forall k :: 0 <= k < |steps| ==> !steps[k].Lost?
  }

  /** The remote value of a device this process was never told about is never written. */
  lemma {:induction false} UntrackedUntouched(remote: map<Uuid, bool>, steps: seq<Step>, batch: BatchSize, u: Uuid)
    ensures var w := Run(Start(remote), steps, batch);
            u !in w.s.devices ==> ((u in w.remote) == (u in remote)) && (u in remote ==> w.remote[u] == remote[u])
  {
    hide Next, Inv;
    if steps != [] {
      var before := steps[..|steps| - 1];
      UntrackedUntouched(remote, before, batch, u);
      Reachable(remote, before, batch);
      StepUntouched(Run(Start(remote), before, batch), steps[|steps| - 1], batch, u);
    }
  }

  lemma StepUntouched(w: World, step: Step, batch: BatchSize, u: Uuid)
    requires Inv(w.s, batch)
    ensures var t := Next(w, step, batch);
            u !in t.s.devices ==>
              && u !in w.s.devices && ((u in t.remote) == (u in w.remote))
              && (u in w.remote ==> t.remote[u] == w.remote[u])
  {
    hide Chunks, Select;
  }

  /** The round started for a single pending device. */
  lemma SingleDeviceRound(s: State, u: Uuid, batch: BatchSize)
    requires !s.reporting && s.pending == [u] && u in s.devices
    ensures UpdateLoop(s, batch)
            == State(s.devices, [], true,
                     if s.devices[u].Settled() then [] else [Request([u], s.devices[u].targetConnected)])
  {
    assert [u][..0] == [];
    forall c: bool ensures Select(s.devices, [u], c) == if Due(s.devices, u, c) then [u] else [] {
      assert Select(s.devices, [u][..0], c) == [];
    }
    assert Requests([u], s.devices[u].targetConnected, batch) == [Request([u], s.devices[u].targetConnected)];
  }

  /** A device whose target is reported in a round of its own. */
  lemma LoneTarget(w: World, u: Uuid, d: Device, batch: BatchSize)
    requires !w.s.reporting && w.s.pending == [] && !d.Settled()
    requires SetTarget(w.s, u, d.targetWorker, d.targetConnected).devices == map[u := d]
    ensures Next(w, Target(u, d.targetWorker, d.targetConnected), batch)
            == w.(s := State(map[u := d], [], true, [Request([u], d.targetConnected)]))
  {
    var t := SetTarget(w.s, u, d.targetWorker, d.targetConnected);
    assert Next(w, Target(u, d.targetWorker, d.targetConnected), batch) == w.(s := UpdateLoop(t, batch));
    assert t.pending == [u];
    hide Next, UpdateLoop, SetTarget;
    SingleDeviceRound(t, u, batch);
  }

  lemma FirstTarget(remote: map<Uuid, bool>, u: Uuid, worker: int, batch: BatchSize)
    ensures Next(Start(remote), Target(u, worker, true), batch)
            == Start(remote).(s := State(map[u := Device(true, worker, None, None)], [], true, [Request([u], true)]))
  {
    LoneTarget(Start(remote), u, Device(true, worker, None, None), batch);
  }

  lemma LoneTimer(w: World, u: Uuid, batch: BatchSize)
    requires w.s.reporting && w.s.inflight == [] && w.s.pending == [u] && u in w.s.devices && w.s.devices[u].Settled()
    ensures Next(w, Timer, batch) == w.(s := State(w.s.devices, [], true, []))
  {
    SingleDeviceRound(w.s.(reporting := false), u, batch);
  }

  lemma LoneSuccess(s: State, u: Uuid, d: Device, connected: bool)
    requires s == State(map[u := d], [], true, [Request([u], connected)])
    ensures Succeed(s, 0)
            == State(map[u := d.(currentConnected := Some(connected), currentWorker := Some(d.targetWorker))],
                     [], true, [])
  {
    assert u in s.inflight[0].uuids;
  }

  lemma LoneLoss(w: World, u: Uuid, d: Device, connected: bool, batch: BatchSize)
    requires w.s == State(map[u := d], [], true, [Request([u], connected)])
    ensures Next(w, Lost(0), batch).s == State(map[u := d], [u], true, [])
    ensures var t := Next(w, Lost(0), batch); u in t.remote && t.remote[u] == connected
  {
    LoneFailure(w.s, u, d, connected);
    assert u in w.s.inflight[0].uuids;
    hide Fail;
  }

  lemma LoneFailure(s: State, u: Uuid, d: Device, connected: bool)
    requires s == State(map[u := d], [], true, [Request([u], connected)])
    ensures Fail(s, 0) == State(map[u := d], [u], true, [])
  {
    assert AddAll([], [u]) == Add(AddAll([], [u][..0]), u);
    hide AddAll;
    assert [u][..0] == [];
  }

  /** `u` is settled at `connected` on `worker`, and no round is running. */
  predicate Rests(w: World, u: Uuid, worker: int, connected: bool) {
    w.s == State(map[u := Device(connected, worker, Some(connected), Some(worker))], [], false, [])
  }

  lemma FirstConnectRests(remote: map<Uuid, bool>, u: Uuid, worker: int, batch: BatchSize)
    ensures var w2 := Next(Next(Start(remote), Target(u, worker, true), batch), Success(0), batch);
            Rests(Next(w2, Timer, batch), u, worker, true)
  {
    var w1 := Next(Start(remote), Target(u, worker, true), batch);
    var w2 := Next(w1, Success(0), batch);
    FirstTarget(remote, u, worker, batch);
    assert w2.s == Succeed(w1.s, 0);
    hide Next, Succeed;
    LoneSuccess(w1.s, u, Device(true, worker, None, None), true);
    QuietTimer(w2, batch);
  }

  lemma QuietTimer(w: World, batch: BatchSize)
    requires w.s.reporting && w.s.inflight == [] && w.s.pending == []
    ensures Next(w, Timer, batch) == w.(s := w.s.(reporting := false))
  {
  }

  lemma LostDisconnect(w3: World, u: Uuid, worker: int, batch: BatchSize)
    requires Rests(w3, u, worker, true)
    ensures var w5 := Next(Next(w3, Target(u, worker, false), batch), Lost(0), batch);
            && w5.s == State(map[u := Device(false, worker, Some(true), Some(worker))], [u], true, [])
            && u in w5.remote && !w5.remote[u]
  {
    var d := Device(false, worker, Some(true), Some(worker));
    LoneTarget(w3, u, d, batch);
    LoneLoss(Next(w3, Target(u, worker, false), batch), u, d, false, batch);
  }

  lemma RestoredTargetIsDropped(w5: World, u: Uuid, worker: int, batch: BatchSize)
    requires w5.s == State(map[u := Device(false, worker, Some(true), Some(worker))], [u], true, [])
    ensures var w8 := Next(Next(Next(w5, Target(u, worker, true), batch), Timer, batch), Timer, batch);
            Rests(w8, u, worker, true) && w8.remote == w5.remote
  {
    var w6 := Next(w5, Target(u, worker, true), batch);
    assert w6.s == State(map[u := Device(true, worker, Some(true), Some(worker))], [u], true, []);
    LoneTimer(w6, u, batch);
  }

  /**
   Why a failed request must have had no effect: a disconnect whose answer is lost, followed by a
   connect, leaves the remote table at "disconnected" for good, because the restored target
   equals the confirmed state and is dropped from the next snapshot.
   */
  lemma LostAnswerBreaksAgreement(remote: map<Uuid, bool>, u: Uuid, worker: int, batch: BatchSize)
    ensures var w := Run(Start(remote),
                         [Target(u, worker, true), Success(0), Timer, Target(u, worker, false)]
                         + [Lost(0), Target(u, worker, true), Timer, Timer], batch);
            && Rests(w, u, worker, true) && u in w.remote && !w.remote[u]
  {
    var a := [Target(u, worker, true), Success(0), Timer, Target(u, worker, false)];
    var b := [Lost(0), Target(u, worker, true), Timer, Timer];
    var w0 := Start(remote);
    RunAppend(w0, a, b, batch);
    UnrollFour(w0, a, batch);
    UnrollFour(Run(w0, a, batch), b, batch);
    FirstConnectRests(remote, u, worker, batch);
    var w3 := Next(Next(Next(w0, a[0], batch), a[1], batch), a[2], batch);
    LostDisconnect(w3, u, worker, batch);
    RestoredTargetIsDropped(Next(Next(w3, a[3], batch), b[0], batch), u, worker, batch);
  }

  function UnrolledFour(w: World, s: seq<Step>, batch: BatchSize): (r: World)
    requires |s| == 4
  {
    Next(Next(Next(Next(w, s[0], batch), s[1], batch), s[2], batch), s[3], batch)
  }

  lemma UnrollFour(w: World, s: seq<Step>, batch: BatchSize)
    requires |s| == 4
    ensures Run(w, s, batch) == UnrolledFour(w, s, batch)
  {
    assert s[..3][..2] == s[..2] && s[..2][..1] == s[..1] && s[..1][..0] == [];
    assert Run(w, s[..1], batch) == Next(w, s[0], batch);
    assert Run(w, s[..2], batch) == Next(Run(w, s[..1], batch), s[1], batch);
    assert Run(w, s[..3], batch) == Next(Run(w, s[..2], batch), s[2], batch);
  }

  // ---------------------------------------------------------------------------------------
  // Convergence
  // ---------------------------------------------------------------------------------------

  /** Only enabled steps, and no further call of `setConnected`. */
  predicate Quiet(w: World, steps: seq<Step>, batch: BatchSize) {
    steps == [] ||
    (var n := |steps| - 1;
     && Quiet(w, steps[..n], batch)
     && !steps[n].Target?
     && Enabled(Run(w, steps[..n], batch).s, steps[n]))
  }

  function Failures(steps: seq<Step>): (n: nat) {
    if steps == [] then 0
    else Failures(steps[..|steps| - 1]) + if steps[|steps| - 1].Failure? || steps[|steps| - 1].Lost? then 1 else 0
  }

  function Rounds(steps: seq<Step>): (n: nat) {
    if steps == [] then 0 else Rounds(steps[..|steps| - 1]) + if steps[|steps| - 1].Timer? then 1 else 0
  }

  /** The rounds that must still end: the running one, and one more for what is pending. */
  function RoundsAhead(s: State): (n: nat) {
    (if s.reporting then 1 else 0) + if s.pending != [] then 1 else 0
  }

  /** `n` times `k`. */
  function Times(k: nat, n: nat): (r: nat) {
    if n == 0 then 0 else k + Times(k, n - 1)
  }

  /** An upper bound on the steps still to come when `failures` more requests may fail. */
  function Potential(s: State, failures: nat): (n: nat) {
    |s.inflight| + (if s.reporting then 1 else 0)
    + Times(|s.devices| + 1, failures + if s.pending != [] then 1 else 0)
  }

  function Cost(step: Step): (n: nat) {
    if step.Failure? || step.Lost? then 1 else 0
  }

  lemma QuietKeepsDevices(w: World, step: Step, batch: BatchSize)
    requires !step.Target?
    ensures |Next(w, step, batch).s.devices| == |w.s.devices|
  {
    var s, t := w.s, Next(w, step, batch).s;
    assert t.devices.Keys == s.devices.Keys;
    assert |t.devices| == |t.devices.Keys| && |s.devices| == |s.devices.Keys|;
  }

  lemma ProgressRounds(w: World, step: Step, batch: BatchSize)
    requires Inv(w.s, batch) && Enabled(w.s, step) && !step.Target?
    ensures RoundsAhead(Next(w, step, batch).s) + (if step.Timer? then 1 else 0) <= RoundsAhead(w.s) + Cost(step)
  {
  }

  lemma ProgressTimer(s: State, failures: nat, batch: BatchSize)
    requires Inv(s, batch) && Enabled(s, Timer)
    ensures Potential(EndRound(s, batch), failures) + 1 <= Potential(s, failures)
  {
    if s.pending != [] {
      RoundStarts(s.(reporting := false), batch);
      NoDuplicatesBound(s.pending, s.devices.Keys);
      assert |s.devices| == |s.devices.Keys|;
    }
  }

  /** One request fewer is in flight, and only a failure makes something pending. */
  predicate Settles(s: State, t: State, step: Step) {
    && |t.inflight| == |s.inflight| - 1 && t.reporting == s.reporting
    && (step.Success? ==> t.pending == s.pending)
  }

  lemma NextSettles(w: World, step: Step, batch: BatchSize)
    requires Enabled(w.s, step) && !step.Target? && !step.Timer?
    ensures Settles(w.s, Next(w, step, batch).s, step)
  {
    hide UpdateLoop, Confirm, AddAll;
  }

  lemma SettlingProgress(s: State, t: State, step: Step, failures: nat)
    requires Settles(s, t, step) && |t.devices| == |s.devices| && (step.Success? || Cost(step) == 1)
    ensures Potential(t, failures) + 1 <= Potential(s, failures + Cost(step))
  {
    var k := |s.devices| + 1;
    assert Times(k, failures + 1) == k + Times(k, failures);
    assert Times(k, failures + 2) == k + Times(k, failures + 1);
  }

  /** Every quiet step uses up some of the potential. */
  lemma ProgressStep(w: World, step: Step, failures: nat, batch: BatchSize)
    requires Inv(w.s, batch) && Enabled(w.s, step) && !step.Target?
    ensures Potential(Next(w, step, batch).s, failures) + 1 <= Potential(w.s, failures + Cost(step))
  {
    hide Inv, UpdateLoop, Potential;
    QuietKeepsDevices(w, step, batch);
    if step.Timer? {
      assert Next(w, step, batch).s == EndRound(w.s, batch);
      ProgressTimer(w.s, failures, batch);
    } else {
      NextSettles(w, step, batch);
      SettlingProgress(w.s, Next(w, step, batch).s, step, failures);
    }
  }

  lemma {:induction false} QuietRounds(w: World, steps: seq<Step>, batch: BatchSize)
    requires Inv(w.s, batch) && Quiet(w, steps, batch)
    ensures Inv(Run(w, steps, batch).s, batch)
    ensures Rounds(steps) + RoundsAhead(Run(w, steps, batch).s) <= RoundsAhead(w.s) + Failures(steps)
  {
    if steps != [] {
      var n := |steps| - 1;
      QuietRounds(w, steps[..n], batch);
      NextKeepsInv(Run(w, steps[..n], batch), steps[n], batch);
      ProgressRounds(Run(w, steps[..n], batch), steps[n], batch);
    }
  }

  lemma {:induction false} QuietBound(w: World, steps: seq<Step>, failures: nat, batch: BatchSize)
    requires Inv(w.s, batch) && Quiet(w, steps, batch)
    ensures |steps| + Potential(Run(w, steps, batch).s, failures) <= Potential(w.s, failures + Failures(steps))
  {
    hide Next, Inv, Potential;
    if steps != [] {
      var n := |steps| - 1;
      var before, last := steps[..n], steps[n];
      QuietRounds(w, before, batch);
      var m := failures + Cost(last);
      QuietBound(w, before, m, batch);
      assert m + Failures(before) == failures + Failures(steps);
      assert Potential(Run(w, steps, batch).s, failures) + 1 <= Potential(Run(w, before, batch).s, m) by {
        ProgressStep(Run(w, before, batch), last, failures, batch);
      }
    }
  }

  /** While a round is running some step other than a new event can happen; once none is, nothing can. */
  ghost predicate Stopped(s: State) {
    forall step: Step :: !step.Target? ==> !Enabled(s, step)
  }

  lemma StoppedIffIdle(s: State, batch: BatchSize)
    requires Inv(s, batch)
    ensures Stopped(s) <==> !s.reporting
    ensures !s.reporting ==> s.pending == [] && forall u :: u in s.devices ==> s.devices[u].Settled()
  {
    if s.reporting {
      assert if s.inflight == [] then Enabled(s, Timer) else Enabled(s, Success(0));
    }
  }

  /**
   Convergence. From any reachable world, a continuation without new events has bounded length
   once the number of failures is given; it can always be extended until the loop stops; then
   every device is confirmed. It closes at most the running round, one more, and one per failure.
   */
  lemma Convergence(remote: map<Uuid, bool>, history: seq<Step>, steps: seq<Step>, batch: BatchSize)
    requires Quiet(Run(Start(remote), history, batch), steps, batch)
    ensures var w := Run(Start(remote), history, batch);
            var e := Run(w, steps, batch);
            && |steps| <= Potential(w.s, Failures(steps))
            && Rounds(steps) <= RoundsAhead(w.s) + Failures(steps) <= 2 + Failures(steps)
            && (Rounds(steps) == RoundsAhead(w.s) + Failures(steps) ==> !e.s.reporting)
            && (Stopped(e.s) <==> !e.s.reporting)
            && (Stopped(e.s) ==> e.s.pending == [] && forall u :: u in e.s.devices ==> e.s.devices[u].Settled())
  {
    hide Next, Inv, Quiet, Times;
    var w := Run(Start(remote), history, batch);
    var e := Run(w, steps, batch);
    Reachable(remote, history, batch);
    QuietRounds(w, steps, batch);
    QuietBound(w, steps, 0, batch);
    StoppedIffIdle(e.s, batch);
  }

  // ---------------------------------------------------------------------------------------
  // Worker changes
  // ---------------------------------------------------------------------------------------

  /** An unsettled request carries `u` with the given value. */
  ghost predicate Sent(s: State, u: Uuid, connected: bool) {
    exists i :: 0 <= i < |s.inflight| && u in s.inflight[i].uuids && s.inflight[i].connected == connected
  }

  /** No snapshot is taken and nothing new is said about `u`. */
  predicate BeforeSnapshot(steps: seq<Step>, u: Uuid) {
    forall k :: 0 <= k < |steps| ==> !steps[k].Timer? && !(steps[k].Target? && steps[k].uuid == u)
  }

  /** `u` waits for the next snapshot with an unconfirmed worker. */
  ghost predicate Waiting(s: State, u: Uuid, worker: int, connected: bool) {
    && s.reporting && u in s.pending && !InFlight(s, u) && u in s.devices
    && s.devices[u].targetConnected == connected && s.devices[u].targetWorker == worker
    && s.devices[u].currentWorker != Some(worker)
  }

  lemma WaitingStep(w: World, step: Step, batch: BatchSize, u: Uuid, worker: int, connected: bool)
    requires Inv(w.s, batch) && Waiting(w.s, u, worker, connected)
    requires !step.Timer? && !(step.Target? && step.uuid == u)
    ensures Waiting(Next(w, step, batch).s, u, worker, connected)
  {
    if Enabled(w.s, step) && !step.Target? {
      DropCarries(w.s.inflight, step.i);
      assert u !in w.s.inflight[step.i].uuids;
    }
  }

  lemma {:induction false} WaitingRun(w: World, steps: seq<Step>, batch: BatchSize, u: Uuid, worker: int,
                                      connected: bool)
    requires Inv(w.s, batch) && Waiting(w.s, u, worker, connected) && BeforeSnapshot(steps, u)
    ensures Inv(Run(w, steps, batch).s, batch) && Waiting(Run(w, steps, batch).s, u, worker, connected)
  {
    if steps != [] {
      var before := steps[..|steps| - 1];
      WaitingRun(w, before, batch, u, worker, connected);
      NextKeepsInv(Run(w, before, batch), steps[|steps| - 1], batch);
      WaitingStep(Run(w, before, batch), steps[|steps| - 1], batch, u, worker, connected);
    }
  }

  lemma SnapshotSends(s: State, batch: BatchSize, u: Uuid)
    requires Tracked(s) && !s.reporting && s.inflight == [] && u in s.pending && !s.devices[u].Settled()
    ensures Sent(UpdateLoop(s, batch), u, s.devices[u].targetConnected)
  {
    RoundStarts(s, batch);
    var r := UpdateLoop(s, batch);
    assert InFlight(r, u);
    var i :| 0 <= i < |r.inflight| && u in r.inflight[i].uuids;
  }

  /**
   A report from a worker other than the confirmed one, for a device that is not in flight, is
   followed by a request made after it: at once when no round is running, and otherwise by the
   next snapshot, whatever settles in between, unless a newer report for the device comes first.
   */
  lemma WorkerChangeIsSent(remote: map<Uuid, bool>, history: seq<Step>, steps: seq<Step>, batch: BatchSize,
                           u: Uuid, worker: int, connected: bool)
    requires var s := Run(Start(remote), history, batch).s;
             !InFlight(s, u) && (u in s.devices ==> s.devices[u].currentWorker != Some(worker))
    requires BeforeSnapshot(steps, u)
    ensures var w := Run(Start(remote), history, batch);
            var t := Next(w, Target(u, worker, connected), batch);
            var e := Run(t, steps, batch);
            && (!w.s.reporting ==> Sent(t.s, u, connected))
            && (w.s.reporting && Enabled(e.s, Timer) ==> Sent(Next(e, Timer, batch).s, u, connected))
  {
    var w := Run(Start(remote), history, batch);
    var t := Next(w, Target(u, worker, connected), batch);
    Reachable(remote, history, batch);
    NextKeepsInv(w, Target(u, worker, connected), batch);
    if w.s.reporting {
      assert Waiting(t.s, u, worker, connected);
      WaitingRun(t, steps, batch, u, worker, connected);
      var e := Run(t, steps, batch);
      if Enabled(e.s, Timer) {
        SnapshotSends(e.s.(reporting := false), batch, u);
      }
    } else {
      SnapshotSends(SetTarget(w.s, u, worker, connected), batch, u);
    }
  }

  /** Within `steps` a request that carries `u` succeeds. */
  ghost predicate Succeeds(w: World, steps: seq<Step>, batch: BatchSize, u: Uuid) {
    exists k :: 0 <= k < |steps| && SucceedsAt(Run(w, steps[..k], batch), steps[k], u)
  }

  predicate SucceedsAt(w: World, step: Step, u: Uuid) {
    step.Success? && Writes(w, step, u)
  }

  lemma SucceedsSnoc(w: World, steps: seq<Step>, batch: BatchSize, u: Uuid)
    requires steps != []
    ensures var n := |steps| - 1;
            Succeeds(w, steps, batch, u) <==>
              Succeeds(w, steps[..n], batch, u) || SucceedsAt(Run(w, steps[..n], batch), steps[n], u)
  {
    hide SucceedsAt, Run;
    var n := |steps| - 1;
    var before := steps[..n];
    assert forall k :: 0 <= k <= n ==> before[..k] == steps[..k];
    if k :| 0 <= k < |steps| && SucceedsAt(Run(w, steps[..k], batch), steps[k], u) {
      if k < n { assert SucceedsAt(Run(w, before[..k], batch), before[k], u); }
    }
    if k :| 0 <= k < n && SucceedsAt(Run(w, before[..k], batch), before[k], u) {
      assert SucceedsAt(Run(w, steps[..k], batch), steps[k], u);
    }
  }

  /**
   After a report for a device that was in flight with the value `sent`: it is pending with the
   new target; until its request succeeds the new worker is unconfirmed and only `sent` is in
   flight, and from then on `sent` and the new worker are confirmed.
   */
  ghost predicate Overtaken(s: State, u: Uuid, worker: int, connected: bool, sent: bool, succeeded: bool) {
    && s.reporting && u in s.pending && u in s.devices
    && s.devices[u].targetConnected == connected && s.devices[u].targetWorker == worker
    && (if succeeded
        then !InFlight(s, u)
             && s.devices[u].currentConnected == Some(sent) && s.devices[u].currentWorker == Some(worker)
        else s.devices[u].currentWorker != Some(worker) && CarriedAs(s.inflight, u, sent))
  }

  ghost predicate CarriedAs(rs: seq<Request>, u: Uuid, sent: bool) {
    forall i :: 0 <= i < |rs| && u in rs[i].uuids ==> rs[i].connected == sent
  }

  lemma OvertakenStep(w: World, step: Step, batch: BatchSize, u: Uuid, worker: int, connected: bool,
                      sent: bool, succeeded: bool)
    requires Inv(w.s, batch) && Overtaken(w.s, u, worker, connected, sent, succeeded)
    requires !step.Timer? && !(step.Target? && step.uuid == u)
    ensures Overtaken(Next(w, step, batch).s, u, worker, connected, sent, succeeded || SucceedsAt(w, step, u))
  {
    if Enabled(w.s, step) && !step.Target? {
      DropCarries(w.s.inflight, step.i);
      DropMembers(w.s.inflight, step.i);
    }
  }

  lemma {:induction false} OvertakenRun(w: World, steps: seq<Step>, batch: BatchSize, u: Uuid, worker: int,
                                        connected: bool, sent: bool)
    requires Inv(w.s, batch) && Overtaken(w.s, u, worker, connected, sent, false) && BeforeSnapshot(steps, u)
    ensures Inv(Run(w, steps, batch).s, batch)
    ensures Overtaken(Run(w, steps, batch).s, u, worker, connected, sent, Succeeds(w, steps, batch, u))
  {
    if steps == [] {
      return;
    }
    hide Next, Overtaken, SucceedsAt, Succeeds, Inv;
    var before, last := steps[..|steps| - 1], steps[|steps| - 1];
    OvertakenRun(w, before, batch, u, worker, connected, sent);
    NextKeepsInv(Run(w, before, batch), last, batch);
    SucceedsSnoc(w, steps, batch, u);
    OvertakenStep(Run(w, before, batch), last, batch, u, worker, connected, sent, Succeeds(w, before, batch, u));
  }

  /** A snapshot sends a pending device exactly when its target is unconfirmed. */
  lemma SnapshotSendsIff(s: State, batch: BatchSize, u: Uuid)
    requires Tracked(s) && !s.reporting && s.inflight == [] && u in s.pending
    ensures Sent(UpdateLoop(s, batch), u, s.devices[u].targetConnected) <==> !s.devices[u].Settled()
  {
    RoundStarts(s, batch);
    hide UpdateLoop;
    if !s.devices[u].Settled() {
      SnapshotSends(s, batch, u);
    } else {
      assert !InFlight(UpdateLoop(s, batch), u);
    }
  }

  /**
   The in-flight case, exactly: a report from a new worker for a device in flight is sent by the
   next snapshot, whatever settles before it, unless it repeats the value in flight and a request
   for the device succeeds, because success confirms the newest worker.
   */
  lemma InFlightReportSwallowed(remote: map<Uuid, bool>, history: seq<Step>, steps: seq<Step>, batch: BatchSize,
                                u: Uuid, worker: int, connected: bool, i: nat)
    requires var s := Run(Start(remote), history, batch).s;
             && i < |s.inflight| && u in s.inflight[i].uuids
             && (u in s.devices ==> s.devices[u].currentWorker != Some(worker))
    requires BeforeSnapshot(steps, u)
    ensures var w := Run(Start(remote), history, batch);
            var t := Next(w, Target(u, worker, connected), batch);
            var e := Run(t, steps, batch);
            Enabled(e.s, Timer) ==>
              (Sent(Next(e, Timer, batch).s, u, connected) <==>
               !(w.s.inflight[i].connected == connected && Succeeds(t, steps, batch, u)))
  {
    var w := Run(Start(remote), history, batch);
    var t := Next(w, Target(u, worker, connected), batch);
    var e := Run(t, steps, batch);
    var sent := w.s.inflight[i].connected;
    Reachable(remote, history, batch);
    NextKeepsInv(w, Target(u, worker, connected), batch);
    ReportOvertakes(w, batch, u, worker, connected, i);
    hide Next, Overtaken, Inv, Run, Succeeds, Sent;
    OvertakenRun(t, steps, batch, u, worker, connected, sent);
    OvertakenTimer(e, batch, u, worker, connected, sent, Succeeds(t, steps, batch, u));
  }

  lemma OvertakenTimer(e: World, batch: BatchSize, u: Uuid, worker: int, connected: bool, sent: bool, succeeded: bool)
    requires Inv(e.s, batch) && Overtaken(e.s, u, worker, connected, sent, succeeded)
    ensures Enabled(e.s, Timer) ==>
              (Sent(Next(e, Timer, batch).s, u, connected) <==> !(sent == connected && succeeded))
  {
    if !Enabled(e.s, Timer) {
      return;
    }
    var s := e.s.(reporting := false);
    assert Next(e, Timer, batch).s == UpdateLoop(s, batch);
    hide Next, UpdateLoop, Sent;
    SnapshotSendsIff(s, batch, u);
  }

  lemma ReportOvertakes(w: World, batch: BatchSize, u: Uuid, worker: int, connected: bool, i: nat)
    requires Inv(w.s, batch) && i < |w.s.inflight| && u in w.s.inflight[i].uuids
    requires u in w.s.devices ==> w.s.devices[u].currentWorker != Some(worker)
    ensures var t := Next(w, Target(u, worker, connected), batch);
            Overtaken(t.s, u, worker, connected, w.s.inflight[i].connected, false)
  {
    assert InFlight(w.s, u);
  }

  /** A run in which the second worker's connect is never sent. */
  lemma SecondWorkerNeverSent(remote: map<Uuid, bool>, u: Uuid, first: int, second: int, batch: BatchSize)
    ensures var steps := [Target(u, first, true), Target(u, second, true), Success(0), Timer];
            var w := Run(Start(remote), steps, batch);
            && w.s.pending == [] && w.s.inflight == []
            && u in w.s.devices && w.s.devices[u] == Device(true, second, Some(true), Some(second))
  {
    var steps := [Target(u, first, true), Target(u, second, true), Success(0), Timer];
    var w0 := Start(remote);
    FirstTarget(remote, u, first, batch);
    hide Next;
    UnrollFour(w0, steps, batch);
    SecondConnectConfirmed(Next(w0, steps[0], batch), u, first, second, batch);
    LoneTimer(Next(Next(Next(w0, steps[0], batch), steps[1], batch), steps[2], batch), u, batch);
  }

  lemma SecondConnectConfirmed(w1: World, u: Uuid, first: int, second: int, batch: BatchSize)
    requires w1.s == State(map[u := Device(true, first, None, None)], [], true, [Request([u], true)])
    ensures Next(Next(w1, Target(u, second, true), batch), Success(0), batch).s
            == State(map[u := Device(true, second, Some(true), Some(second))], [u], true, [])
  {
  }
}
