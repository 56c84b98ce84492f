/**
 The device-state reporter of src/utils/clients.ts.

 `setConnected` records a target state per device and starts a reporting round when none is
 running. A round takes a snapshot of the pending devices, clears them, sends the ones whose
 target differs from the last confirmed state in bounded requests, waits for every request to
 settle, pauses, and then looks at the pending devices again. JavaScript runs each stretch of
 code between two awaits without interruption, so the system moves by the steps of `Step`:
 a call of `setConnected` (together with the round it may start), the settling of one request,
 and the end of a round (together with the next round it may start).

 `World` adds what the program cannot see: the remote table that the requests write.
 */
module Reporter {
  import opened Sequences

  type Uuid = string

  datatype Device = Device(
    targetConnected: bool,
    targetWorker: int,
    currentConnected: Option<bool>,
    currentWorker: Option<int>)
  {
    /** Nothing to report: the confirmed state is the target state. */
    predicate Settled() {
      currentConnected == Some(targetConnected) && currentWorker == Some(targetWorker)
    }
  }

  /** One POST to client-connect or client-disconnect that has not settled yet. */
  datatype Request = Request(uuids: seq<Uuid>, connected: bool)

  datatype State = State(
    devices: map<Uuid, Device>,
    pending: seq<Uuid>,
    reporting: bool,
    inflight: seq<Request>)

  const EMPTY: State := State(map[], [], false, [])

  /** API_DEVICE_STATE_POST_BATCH_SIZE; with a size below 1 the chunking loop never ends. */
  type BatchSize = n: int | 1 <= n witness 1

  // ---------------------------------------------------------------------------------------
  // The steps
  // ---------------------------------------------------------------------------------------

  /** Consecutive pieces of `s`, every one of length `size` except possibly the last. */
  function Chunks<T>(s: seq<T>, size: BatchSize): (r: seq<seq<T>>)
    decreases |s|
  {
    if |s| <= size then (if s == [] then [] else [s])
    else [s[..size]] + Chunks(s[size..], size)
  }

  /** A pending device is sent only when target and confirmed state differ. */
  predicate Due(devices: map<Uuid, Device>, u: Uuid, connected: bool) {
    u in devices && !devices[u].Settled() && devices[u].targetConnected == connected
  }

  /** The pending devices that are due with the given target, in order. */
  function Select(devices: map<Uuid, Device>, pending: seq<Uuid>, connected: bool): (r: seq<Uuid>)
    ensures forall u :: u in r <==> u in pending && Due(devices, u, connected)
  {
    if pending == [] then [] else
      var n := |pending| - 1;
      assert pending == pending[..n] + [pending[n]];
      Select(devices, pending[..n], connected) + if Due(devices, pending[n], connected) then [pending[n]] else []
  }

  function Requests(uuids: seq<Uuid>, connected: bool, batch: BatchSize): (r: seq<Request>) {
    var chunks := Chunks(uuids, batch);
    seq(|chunks|, i requires 0 <= i < |chunks| => Request(chunks[i], connected))
  }

  function UpdateLoop(s: State, batch: BatchSize): (r: State) {
    if s.reporting || s.pending == [] then s
    else State(s.devices, [], true,
               Requests(Select(s.devices, s.pending, false), false, batch)
               + Requests(Select(s.devices, s.pending, true), true, batch))
  }

  function SetTarget(s: State, u: Uuid, worker: int, connected: bool): (r: State) {
    var device := if u in s.devices
                  then s.devices[u].(targetConnected := connected, targetWorker := worker)
                  else Device(connected, worker, None, None);
    s.(devices := s.devices[u := device], pending := Add(s.pending, u))
  }

  function SetConnected(s: State, u: Uuid, worker: int, connected: bool, batch: BatchSize): (r: State) {
    UpdateLoop(SetTarget(s, u, worker, connected), batch)
  }

  /** A success confirms the value that was sent, and the worker that is the target by now. */
  function Confirm(devices: map<Uuid, Device>, uuids: seq<Uuid>, connected: bool): (r: map<Uuid, Device>) {
    map u | u in devices ::
      if u in uuids
      then devices[u].(currentConnected := Some(connected), currentWorker := Some(devices[u].targetWorker))
      else devices[u]
  }

  function Drop<T>(s: seq<T>, i: nat): (r: seq<T>)
    requires i < |s|
  {
    s[..i] + s[i + 1..]
  }

  function Succeed(s: State, i: nat): (r: State)
    requires i < |s.inflight|
  {
    s.(devices := Confirm(s.devices, s.inflight[i].uuids, s.inflight[i].connected), inflight := Drop(s.inflight, i))
  }

  function Fail(s: State, i: nat): (r: State)
    requires i < |s.inflight|
  {
    s.(pending := AddAll(s.pending, s.inflight[i].uuids), inflight := Drop(s.inflight, i))
  }

  function EndRound(s: State, batch: BatchSize): (r: State) {
    UpdateLoop(s.(reporting := false), batch)
  }

  // ---------------------------------------------------------------------------------------
  // Runs, with the remote table
  // ---------------------------------------------------------------------------------------

  datatype World = World(s: State, remote: map<Uuid, bool>)

  datatype Step =
    | Target(uuid: Uuid, worker: int, connected: bool)
    | Success(i: nat)
    | Failure(i: nat)  // the request had no remote effect
    | Lost(i: nat)     // the request took effect, its answer was an error or a timeout
    | Timer            // the pause that closes a round is over

  predicate Enabled(s: State, step: Step) {
    match step
    case Target(_, _, _) => true
    case Success(i) => i < |s.inflight|
    case Failure(i) => i < |s.inflight|
    case Lost(i) => i < |s.inflight|
    case Timer => s.reporting && s.inflight == []
  }

  function Write(remote: map<Uuid, bool>, r: Request): (w: map<Uuid, bool>) {
    remote + map u | u in r.uuids :: r.connected
  }

  /** A step that is not enabled leaves the world as it is, so every sequence of steps is a run. */
  function Next(w: World, step: Step, batch: BatchSize): (r: World) {
    if !Enabled(w.s, step) then w else
    match step
    case Target(u, worker, c) => w.(s := SetConnected(w.s, u, worker, c, batch))
    case Success(i) =>
      var q := w.s.inflight[i];
      World(Succeed(w.s, i), Write(w.remote, q))
    case Failure(i) => w.(s := Fail(w.s, i))
    case Lost(i) =>
      var q := w.s.inflight[i];
      World(Fail(w.s, i), Write(w.remote, q))
    case Timer => w.(s := EndRound(w.s, batch))
  }

  function Run(w: World, steps: seq<Step>, batch: BatchSize): (r: World) {
    if steps == [] then w
    else Next(Run(w, steps[..|steps| - 1], batch), steps[|steps| - 1], batch)
  }

  function Start(remote: map<Uuid, bool>): (w: World) {
    World(EMPTY, remote)
  }

  // ---------------------------------------------------------------------------------------
  // The invariant
  // ---------------------------------------------------------------------------------------

  /** `u` is one of the uuids of one of the requests. */
  ghost predicate Carries(rs: seq<Request>, u: Uuid) {
    exists i :: 0 <= i < |rs| && u in rs[i].uuids
  }

  ghost predicate Disjoint(rs: seq<Request>) {
    forall i, j, u :: 0 <= i < j < |rs| && u in rs[i].uuids ==> u !in rs[j].uuids
  }

  ghost predicate InFlight(s: State, u: Uuid) {
    Carries(s.inflight, u)
  }

  /** Every uuid the code looks up is present; `pendingUpdates` is a set. */
  ghost predicate Tracked(s: State) {
    && NoDuplicates(s.pending)
    && (forall u :: u in s.pending ==> u in s.devices)
    && (forall i, u :: 0 <= i < |s.inflight| && u in s.inflight[i].uuids ==> u in s.devices)
  }

  /** Requests are non-empty and bounded, and no uuid is in two unsettled requests or twice in one. */
  ghost predicate SingleFlight(s: State, batch: BatchSize) {
    && (forall i :: 0 <= i < |s.inflight| ==> 1 <= |s.inflight[i].uuids| <= batch && NoDuplicates(s.inflight[i].uuids))
    && Disjoint(s.inflight)
  }

  /** Between rounds nothing is pending and nothing is in flight. */
  predicate AwakeIfPending(s: State) {
    !s.reporting ==> s.pending == [] && s.inflight == []
  }

  /** An unconfirmed target is pending or in flight. */
  ghost predicate NothingLost(s: State) {
    forall u :: u in s.devices && !s.devices[u].Settled() ==> u in s.pending || InFlight(s, u)
  }

  /** An in-flight uuid still has the target that was sent, or it is pending again. */
  ghost predicate SentOrPending(s: State) {
    forall i, u :: 0 <= i < |s.inflight| && u in s.inflight[i].uuids && u in s.devices && u !in s.pending ==>
      s.devices[u].targetConnected == s.inflight[i].connected
  }

  ghost predicate Inv(s: State, batch: BatchSize) {
    Tracked(s) && SingleFlight(s, batch) && AwakeIfPending(s) && NothingLost(s) && SentOrPending(s)
  }

  // ---------------------------------------------------------------------------------------
  // The remote table along a run
  // ---------------------------------------------------------------------------------------

  /** The step settles a request that carries `u` and has taken effect. */
  predicate Writes(w: World, step: Step, u: Uuid) {
    Enabled(w.s, step) && (step.Success? || step.Lost?) && u in w.s.inflight[step.i].uuids
  }

  /** The step loses the answer to a request that changed the value last confirmed for `u`. */
  predicate LosesChange(w: World, step: Step, u: Uuid) {
    && Writes(w, step, u) && step.Lost? && u in w.s.devices
    && w.s.devices[u].currentConnected != Some(w.s.inflight[step.i].connected)
  }

  /** Step `k` loses a change of `u`, and no later request for `u` takes effect. */
  ghost predicate LostAt(remote: map<Uuid, bool>, steps: seq<Step>, batch: BatchSize, u: Uuid, k: nat) {
    && k < |steps| && LosesChange(Run(Start(remote), steps[..k], batch), steps[k], u)
    && forall j :: k < j < |steps| ==> !Writes(Run(Start(remote), steps[..j], batch), steps[j], u)
  }

  /** The last request for `u` that took effect changed its value, and its answer was lost. */
  ghost predicate Stale(remote: map<Uuid, bool>, steps: seq<Step>, batch: BatchSize, u: Uuid) {
    exists k: nat :: LostAt(remote, steps, batch, u, k)
  }

  lemma StaleSnoc(remote: map<Uuid, bool>, steps: seq<Step>, batch: BatchSize, u: Uuid)
    requires steps != []
    ensures var n := |steps| - 1;
            var w := Run(Start(remote), steps[..n], batch);
            Stale(remote, steps, batch, u) <==>
              LosesChange(w, steps[n], u) || (Stale(remote, steps[..n], batch, u) && !Writes(w, steps[n], u))
  {
    hide Next, LosesChange, Writes, Run;
    var n := |steps| - 1;
    var before := steps[..n];
    assert forall k :: 0 <= k <= n ==> before[..k] == steps[..k];
    var w := Run(Start(remote), before, batch);
    if k: nat :| LostAt(remote, steps, batch, u, k) {
      if k < n {
        assert LostAt(remote, before, batch, u, k);
      }
    }
    if LosesChange(w, steps[n], u) {
      assert LostAt(remote, steps, batch, u, n);
    }
    if k: nat :| LostAt(remote, before, batch, u, k) && !Writes(w, steps[n], u) {
      assert LostAt(remote, steps, batch, u, k);
    }
  }

  /** The remote table holds the value last confirmed for `u` if `u` is not stale, and another one if it is. */
  ghost predicate RemoteAgrees(w: World, u: Uuid, stale: bool) {
    && (stale ==> u in w.s.devices && u in w.remote && w.s.devices[u].currentConnected != Some(w.remote[u]))
    && (!stale && u in w.s.devices && w.s.devices[u].currentConnected.Some? ==>
          u in w.remote && w.s.devices[u].currentConnected == Some(w.remote[u]))
  }

  // ---------------------------------------------------------------------------------------
  // Starting a round
  // ---------------------------------------------------------------------------------------

  lemma {:induction false} SelectNoDuplicates(devices: map<Uuid, Device>, pending: seq<Uuid>, connected: bool)
    requires NoDuplicates(pending)
    ensures NoDuplicates(Select(devices, pending, connected))
  {
    if pending != [] {
      var n := |pending| - 1;
      SelectNoDuplicates(devices, pending[..n], connected);
      assert pending[n] !in pending[..n];
    }
  }

  /** `x` stands before `y` in `s`. */
  ghost predicate Before(s: seq<Uuid>, x: Uuid, y: Uuid) {
    exists a, b :: 0 <= a < b < |s| && s[a] == x && s[b] == y
  }

  /** The elements of `r` stand in the order of `s`. */
  ghost predicate InOrder(s: seq<Uuid>, r: seq<Uuid>) {
    forall i, j :: 0 <= i < j < |r| ==> Before(s, r[i], r[j])
  }

  lemma BeforeLast(s: seq<Uuid>, x: Uuid)
    requires s != [] && x in s[..|s| - 1]
    ensures Before(s, x, s[|s| - 1])
  {
  }

  lemma BeforeExtends(s: seq<Uuid>, x: Uuid, y: Uuid)
    requires s != [] && Before(s[..|s| - 1], x, y)
    ensures Before(s, x, y)
  {
    var a, b :| 0 <= a < b < |s| - 1 && s[..|s| - 1][a] == x && s[..|s| - 1][b] == y;
    assert s[a] == x && s[b] == y;
  }

  /** The selected devices stand in the order in which they became pending. */
  lemma {:induction false} SelectKeepsOrder(devices: map<Uuid, Device>, pending: seq<Uuid>, connected: bool)
    ensures InOrder(pending, Select(devices, pending, connected))
  {
    if pending == [] {
      return;
    }
    hide Due;
    var n := |pending| - 1;
    var q, r := Select(devices, pending[..n], connected), Select(devices, pending, connected);
    SelectKeepsOrder(devices, pending[..n], connected);
    forall i, j | 0 <= i < j < |r| ensures Before(pending, r[i], r[j]) {
      if j < |q| {
        assert Before(pending[..n], q[i], q[j]);
        BeforeExtends(pending, r[i], r[j]);
      } else {
        assert r[i] in q;
        BeforeLast(pending, r[i]);
      }
    }
  }

  /** What `AddAll` adds stands behind what was there, in the order given. */
  lemma {:induction false} AddedInOrder(s: seq<Uuid>, xs: seq<Uuid>)
    ensures InOrder(xs, AddAll(s, xs)[|s|..])
  {
    if xs == [] {
      return;
    }
    hide Before;
    var n := |xs| - 1;
    var q, r := AddAll(s, xs[..n]), AddAll(s, xs);
    AddedInOrder(s, xs[..n]);
    var added, before := r[|s|..], q[|s|..];
    forall i, j | 0 <= i < j < |added| ensures Before(xs, added[i], added[j]) {
      if j < |before| {
        assert Before(xs[..n], before[i], before[j]);
        BeforeExtends(xs, added[i], added[j]);
      } else {
        assert added[i] == before[i];
        AddedIsGiven(s, xs[..n], |s| + i);
        BeforeLast(xs, added[i]);
      }
    }
  }

  lemma {:induction false} AddedIsGiven(s: seq<Uuid>, xs: seq<Uuid>, i: nat)
    requires |s| <= i < |AddAll(s, xs)|
    ensures AddAll(s, xs)[i] in xs
  {
    var n := |xs| - 1;
    if i < |AddAll(s, xs[..n])| {
      AddedIsGiven(s, xs[..n], i);
    }
  }

  /** The devices of a failed request go back behind those that became pending since, in the order sent. */
  lemma FailureKeepsOrder(s: State, i: nat)
    requires i < |s.inflight|
    ensures var pending := Fail(s, i).pending;
            s.pending <= pending && InOrder(s.inflight[i].uuids, pending[|s.pending|..])
  {
    AddedInOrder(s.pending, s.inflight[i].uuids);
  }

  lemma {:induction false} SelectSizes(devices: map<Uuid, Device>, pending: seq<Uuid>)
    ensures |Select(devices, pending, false)| + |Select(devices, pending, true)| <= |pending|
  {
    if pending != [] {
      SelectSizes(devices, pending[..|pending| - 1]);
    }
  }

  lemma FlattenMember<T>(parts: seq<seq<T>>, i: nat, x: T)
    requires i < |parts| && x in parts[i]
    ensures x in Flatten(parts)
  {
    if i > 0 {
      FlattenMember(parts[1..], i - 1, x);
    }
  }

  lemma {:induction false} FlattenCovers<T>(parts: seq<seq<T>>, x: T)
    requires x in Flatten(parts)
    ensures exists i :: 0 <= i < |parts| && x in parts[i]
  {
    if x in parts[0] {
    } else {
      FlattenCovers(parts[1..], x);
      var i :| 0 <= i < |parts[1..]| && x in parts[1..][i];
      assert x in parts[i + 1];
    }
  }

  /** The pieces keep the order, lose nothing, and are full except possibly the last. */
  lemma {:induction false} ChunksPartition<T>(s: seq<T>, size: BatchSize)
    ensures var r := Chunks(s, size);
            && Flatten(r) == s
            && (forall i :: 0 <= i < |r| ==> 1 <= |r[i]| <= size)
            && (forall i :: 0 <= i < |r| - 1 ==> |r[i]| == size)
            && |r| <= |s|
    decreases |s|
  {
    if |s| > size {
      ChunksPartition(s[size..], size);
      var rest := Chunks(s[size..], size);
      assert ([s[..size]] + rest)[1..] == rest;
    }
  }

  /** The pieces of a duplicate-free sequence are duplicate-free and pairwise disjoint. */
  lemma {:induction false} ChunksDisjoint<T>(s: seq<T>, size: BatchSize)
    requires NoDuplicates(s)
    ensures forall i :: 0 <= i < |Chunks(s, size)| ==> NoDuplicates(Chunks(s, size)[i])
    ensures forall i, j, x :: 0 <= i < j < |Chunks(s, size)| && x in Chunks(s, size)[i] ==> x !in Chunks(s, size)[j]
    decreases |s|
  {
    if |s| > size {
      var head, rest := s[..size], Chunks(s[size..], size);
      ChunksDisjoint(s[size..], size);
      ChunksPartition(s[size..], size);
      assert Chunks(s, size) == [head] + rest;
      forall j, x | 0 <= j < |rest| && x in rest[j] ensures x !in head {
        FlattenMember(rest, j, x);
        assert x in s[size..];
      }
    }
  }

  /** `reportUpdates` sends every uuid it is given, in disjoint bounded requests with one value. */
  lemma RequestsCarry(uuids: seq<Uuid>, connected: bool, batch: BatchSize)
    requires NoDuplicates(uuids)
    ensures var rs := Requests(uuids, connected, batch);
            && (forall u :: Carries(rs, u) <==> u in uuids)
            && Disjoint(rs)
            && (forall i :: 0 <= i < |rs| ==>
                  rs[i].connected == connected && 1 <= |rs[i].uuids| <= batch && NoDuplicates(rs[i].uuids))
            && |rs| <= |uuids|
  {
    var chunks, rs := Chunks(uuids, batch), Requests(uuids, connected, batch);
    ChunksDisjoint(uuids, batch);
    ChunksPartition(uuids, batch);
    forall u | u in uuids ensures Carries(rs, u) {
      FlattenCovers(chunks, u);
      var i :| 0 <= i < |chunks| && u in chunks[i];
      assert u in rs[i].uuids;
    }
    forall i, u | 0 <= i < |rs| && u in rs[i].uuids ensures u in uuids {
      FlattenMember(chunks, i, u);
    }
  }

  lemma DisjointAppend(a: seq<Request>, b: seq<Request>)
    requires Disjoint(a) && Disjoint(b)
    requires forall u :: !(Carries(a, u) && Carries(b, u))
    ensures Disjoint(a + b)
    ensures forall u :: Carries(a + b, u) <==> Carries(a, u) || Carries(b, u)
  {
    var c := a + b;
    forall u | Carries(a, u) ensures Carries(c, u) {
      var i :| 0 <= i < |a| && u in a[i].uuids;
      assert u in c[i].uuids;
    }
    forall u | Carries(b, u) ensures Carries(c, u) {
      var i :| 0 <= i < |b| && u in b[i].uuids;
      assert u in c[|a| + i].uuids;
    }
    forall u | Carries(c, u) ensures Carries(a, u) || Carries(b, u) {
      var i :| 0 <= i < |c| && u in c[i].uuids;
      if i < |a| { assert u in a[i].uuids; } else { assert u in b[i - |a|].uuids; }
    }
    forall i, j, u | 0 <= i < j < |c| && u in c[i].uuids ensures u !in c[j].uuids {
      if i < |a| <= j && u in c[j].uuids {
        assert u in a[i].uuids && u in b[j - |a|].uuids;
        assert Carries(a, u) && Carries(b, u);
      }
    }
  }

  /**
   A round sends exactly the pending devices whose state is unconfirmed, each once and with its
   target as the value, in disjoint requests no larger than the batch size.
   */
  lemma RoundStarts(s: State, batch: BatchSize)
    requires Tracked(s) && s.pending != [] && !s.reporting && s.inflight == []
    ensures var r := UpdateLoop(s, batch);
            && r.devices == s.devices && r.pending == [] && r.reporting
            && SingleFlight(r, batch)
            && |r.inflight| <= |s.pending|
            && (forall u :: InFlight(r, u) <==> u in s.pending && !s.devices[u].Settled())
            && (forall i, u :: 0 <= i < |r.inflight| && u in r.inflight[i].uuids ==>
                  u in s.devices && s.devices[u].targetConnected == r.inflight[i].connected)
  {
    hide Select, Requests, Chunks;
    var off, on := Select(s.devices, s.pending, false), Select(s.devices, s.pending, true);
    var a, b := Requests(off, false, batch), Requests(on, true, batch);
    var r := UpdateLoop(s, batch);
    assert r.inflight == a + b;
    SelectSizes(s.devices, s.pending);
    SelectNoDuplicates(s.devices, s.pending, false);
    SelectNoDuplicates(s.devices, s.pending, true);
    RequestsCarry(off, false, batch);
    RequestsCarry(on, true, batch);
    DisjointAppend(a, b);
    forall i, u | 0 <= i < |r.inflight| && u in r.inflight[i].uuids
      ensures u in s.pending && Due(s.devices, u, r.inflight[i].connected)
    {
      if i < |a| {
        assert u in a[i].uuids;
        assert Carries(a, u);
      } else {
        assert u in b[i - |a|].uuids;
        assert Carries(b, u);
      }
    }
  }

  /** The uuids of the requests one after the other. */
  function UuidsOf(rs: seq<Request>): (us: seq<Uuid>) {
    if rs == [] then [] else rs[0].uuids + UuidsOf(rs[1..])
  }

  lemma {:induction false} UuidsAppend(a: seq<Request>, b: seq<Request>)
    ensures UuidsOf(a + b) == UuidsOf(a) + UuidsOf(b)
  {
    if a == [] {
      assert a + b == b;
    } else {
      assert (a + b)[1..] == a[1..] + b;
      UuidsAppend(a[1..], b);
    }
  }

  lemma {:induction false} UuidsOfChunks(chunks: seq<seq<Uuid>>, connected: bool)
    ensures UuidsOf(seq(|chunks|, i requires 0 <= i < |chunks| => Request(chunks[i], connected))) == Flatten(chunks)
  {
    if chunks != [] {
      var rs := seq(|chunks|, i requires 0 <= i < |chunks| => Request(chunks[i], connected));
      var rest := chunks[1..];
      assert rs[1..] == seq(|rest|, i requires 0 <= i < |rest| => Request(rest[i], connected));
      UuidsOfChunks(rest, connected);
    }
  }

  /** `u` is sent before `v`: as a disconnect before a connect, or in the order in which they became pending. */
  ghost predicate SentBefore(s: State, u: Uuid, v: Uuid) {
    && u in s.devices && v in s.devices
    && if s.devices[u].targetConnected == s.devices[v].targetConnected then Before(s.pending, u, v)
       else s.devices[v].targetConnected
  }

  /** The requests of a round partition the snapshot in order: first the disconnects, then the connects. */
  lemma RoundKeepsOrder(s: State, batch: BatchSize)
    requires s.pending != [] && !s.reporting
    ensures var us := UuidsOf(UpdateLoop(s, batch).inflight);
            && us == Select(s.devices, s.pending, false) + Select(s.devices, s.pending, true)
            && forall i, j :: 0 <= i < j < |us| ==> SentBefore(s, us[i], us[j])
  {
    var off, on := Select(s.devices, s.pending, false), Select(s.devices, s.pending, true);
    RoundUuids(s, batch);
    SelectKeepsOrder(s.devices, s.pending, false);
    SelectKeepsOrder(s.devices, s.pending, true);
    hide Select, Before, UpdateLoop;
    var us := off + on;
    forall i | 0 <= i < |us| ensures Due(s.devices, us[i], i >= |off|) {
      assert if i < |off| then us[i] in off else us[i] in on;
    }
    forall i, j | 0 <= i < j < |us| ensures SentBefore(s, us[i], us[j]) {
      if j < |off| {
        assert Before(s.pending, off[i], off[j]);
      } else if i >= |off| {
        assert Before(s.pending, on[i - |off|], on[j - |off|]);
      }
    }
  }

  lemma RoundUuids(s: State, batch: BatchSize)
    requires s.pending != [] && !s.reporting
    ensures UuidsOf(UpdateLoop(s, batch).inflight)
            == Select(s.devices, s.pending, false) + Select(s.devices, s.pending, true)
  {
    var off, on := Select(s.devices, s.pending, false), Select(s.devices, s.pending, true);
    UuidsAppend(Requests(off, false, batch), Requests(on, true, batch));
    UuidsOfChunks(Chunks(off, batch), false);
    UuidsOfChunks(Chunks(on, batch), true);
    ChunksPartition(off, batch);
    ChunksPartition(on, batch);
  }

  /** `updateLoop` establishes the wake-up property and keeps everything else. */
  lemma UpdateLoopKeepsInv(s: State, batch: BatchSize)
    requires Tracked(s) && SingleFlight(s, batch) && NothingLost(s) && SentOrPending(s)
    requires !s.reporting ==> s.inflight == []
    ensures Inv(UpdateLoop(s, batch), batch)
  {
    if !s.reporting && s.pending != [] {
      RoundStarts(s, batch);
    }
  }

  // ---------------------------------------------------------------------------------------
  // Preservation
  // ---------------------------------------------------------------------------------------

  lemma DropMembers<T>(s: seq<T>, i: nat)
    requires i < |s|
    ensures |Drop(s, i)| == |s| - 1
    ensures forall k :: 0 <= k < |s| - 1 ==> Drop(s, i)[k] == s[if k < i then k else k + 1]
    ensures forall k :: 0 <= k < |s| && k != i ==> s[k] == Drop(s, i)[if k < i then k else k - 1]
  {
  }

  lemma TargetKeepsInv(s: State, u: Uuid, worker: int, connected: bool, batch: BatchSize)
    requires Inv(s, batch)
    ensures Inv(SetConnected(s, u, worker, connected, batch), batch)
  {
    var t := SetTarget(s, u, worker, connected);
    forall v | v in t.devices && !t.devices[v].Settled() ensures v in t.pending || InFlight(t, v) {
      if v != u && v !in s.pending {
        var i :| 0 <= i < |s.inflight| && v in s.inflight[i].uuids;
        assert v in t.inflight[i].uuids;
      }
    }
    UpdateLoopKeepsInv(t, batch);
  }

  lemma DropDisjoint(rs: seq<Request>, i: nat)
    requires i < |rs| && Disjoint(rs)
    ensures Disjoint(Drop(rs, i))
  {
    DropMembers(rs, i);
  }

  lemma DropCarries(rs: seq<Request>, i: nat)
    requires i < |rs| && Disjoint(rs)
    ensures Disjoint(Drop(rs, i))
    ensures forall u :: Carries(Drop(rs, i), u) <==> Carries(rs, u) && u !in rs[i].uuids
  {
    hide Drop;
    DropDisjoint(rs, i);
    var t := Drop(rs, i);
    DropMembers(rs, i);
    forall u | Carries(t, u) ensures Carries(rs, u) && u !in rs[i].uuids {
      var k :| 0 <= k < |t| && u in t[k].uuids;
      var k' := if k < i then k else k + 1;
      assert u in rs[k'].uuids;
    }
    forall u | Carries(rs, u) && u !in rs[i].uuids ensures Carries(t, u) {
      var k :| 0 <= k < |rs| && u in rs[k].uuids;
      assert u in t[if k < i then k else k - 1].uuids;
    }
  }

  lemma SuccessKeepsInv(s: State, i: nat, batch: BatchSize)
    requires Inv(s, batch) && i < |s.inflight|
    ensures Inv(Succeed(s, i), batch)
  {
    var t, q := Succeed(s, i), s.inflight[i];
    DropCarries(s.inflight, i);
    DropMembers(s.inflight, i);
    forall u | u in t.devices && !t.devices[u].Settled() ensures u in t.pending || InFlight(t, u) {
      if u in q.uuids {
        assert s.devices[u].targetConnected != q.connected;
      } else {
        assert t.devices[u] == s.devices[u];
      }
    }
  }

  lemma FailureKeepsInv(s: State, i: nat, batch: BatchSize)
    requires Inv(s, batch) && i < |s.inflight|
    ensures Inv(Fail(s, i), batch)
  {
    var t := Fail(s, i);
    DropCarries(s.inflight, i);
    DropMembers(s.inflight, i);
    assert forall u :: u in s.inflight[i].uuids ==> u in t.pending;
  }

  lemma NextKeepsInv(w: World, step: Step, batch: BatchSize)
    requires Inv(w.s, batch)
    ensures Inv(Next(w, step, batch).s, batch)
  {
    if Enabled(w.s, step) {
      match step
      case Target(u, worker, c) => TargetKeepsInv(w.s, u, worker, c, batch);
      case Success(i) => SuccessKeepsInv(w.s, i, batch);
      case Failure(i) => FailureKeepsInv(w.s, i, batch);
      case Lost(i) => FailureKeepsInv(w.s, i, batch);
      case Timer => UpdateLoopKeepsInv(w.s.(reporting := false), batch);
    }
  }

  lemma NextKeepsRemote(w: World, step: Step, batch: BatchSize, u: Uuid, stale: bool)
    requires Tracked(w.s) && RemoteAgrees(w, u, stale)
    ensures RemoteAgrees(Next(w, step, batch), u, LosesChange(w, step, u) || (stale && !Writes(w, step, u)))
  {
    hide Chunks, Select, Requests;
  }

  /** Every reachable state satisfies the invariant: safety over all interleavings. */
  lemma {:induction false} Reachable(remote: map<Uuid, bool>, steps: seq<Step>, batch: BatchSize)
    ensures Inv(Run(Start(remote), steps, batch).s, batch)
  {
    if steps != [] {
      var before := steps[..|steps| - 1];
      Reachable(remote, before, batch);
      NextKeepsInv(Run(Start(remote), before, batch), steps[|steps| - 1], batch);
    }
  }

  /** Along every run the remote value of a device is the confirmed one exactly when no lost change is outstanding. */
  lemma {:induction false} RemoteFollows(remote: map<Uuid, bool>, steps: seq<Step>, batch: BatchSize, u: Uuid)
    ensures RemoteAgrees(Run(Start(remote), steps, batch), u, Stale(remote, steps, batch, u))
  {
    if steps == [] {
      return;
    }
    hide Next, LosesChange, Writes, Stale, RemoteAgrees;
    var before, last := steps[..|steps| - 1], steps[|steps| - 1];
    RemoteFollows(remote, before, batch, u);
    Reachable(remote, before, batch);
    StaleSnoc(remote, steps, batch, u);
    NextKeepsRemote(Run(Start(remote), before, batch), last, batch, u, Stale(remote, before, batch, u));
  }

  /** What the last event for `u` asked for. */
  function LastTarget(steps: seq<Step>, u: Uuid): (t: Option<Step>)
    ensures t.Some? ==> t.value.Target? && t.value.uuid == u
  {
    if steps == [] then None
    else
      var last := steps[|steps| - 1];
      if last.Target? && last.uuid == u then Some(last) else LastTarget(steps[..|steps| - 1], u)
  }

  /** What one step does to the targets. */
  lemma TargetsAfter(w: World, step: Step, batch: BatchSize)
    ensures var d, t := w.s.devices, Next(w, step, batch).s.devices;
            && (forall u :: u in t <==> u in d || (step.Target? && u == step.uuid))
            && (forall u :: u in t ==>
                  if step.Target? && u == step.uuid
                  then t[u].targetConnected == step.connected && t[u].targetWorker == step.worker
                  else t[u].targetConnected == d[u].targetConnected && t[u].targetWorker == d[u].targetWorker)
  {
    hide Chunks, Select, Requests, AddAll, Add;
  }

  /** Along every run exactly the devices with an event are tracked, each with the target of its last one. */
  lemma {:induction false} TargetIsLast(remote: map<Uuid, bool>, steps: seq<Step>, batch: BatchSize, u: Uuid)
    ensures var devices, last := Run(Start(remote), steps, batch).s.devices, LastTarget(steps, u);
            && (u in devices <==> last.Some?)
            && (u in devices ==>
                  devices[u].targetConnected == last.value.connected && devices[u].targetWorker == last.value.worker)
  {
    if steps != [] {
      hide Next;
      var before := steps[..|steps| - 1];
      TargetIsLast(remote, before, batch, u);
      TargetsAfter(Run(Start(remote), before, batch), steps[|steps| - 1], batch);
    }
  }
}
