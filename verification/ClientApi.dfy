/**
 The client endpoints of src/api.ts on top of the reporter.

 The connect and disconnect scripts post from the background, so the events of one device may
 arrive in any order; a signed reference count per uuid decides what is passed on.
 */
module ClientApi {
  import opened Sequences
  import opened Reporter
  import opened ReporterProgress

  datatype Api = Api(refs: map<Uuid, int>, online: int, total: nat, world: World)

  /** A POST, a DELETE, or a step of the reporter that is not caused by an event. */
  datatype Event =
    | Connect(uuid: Uuid, worker: int)
    | Disconnect(uuid: Uuid, worker: int)
    | Internal(step: Step)

  function Ref(refs: map<Uuid, int>, u: Uuid): (n: int) {
    if u in refs then refs[u] else 0
  }

  /** The call of `setConnected` an event leads to, if any. */
  function Call(refs: map<Uuid, int>, e: Event): (steps: seq<Step>) {
    match e
    case Connect(u, worker) => if Ref(refs, u) >= 0 then [Target(u, worker, true)] else []
    case Disconnect(u, worker) => if Ref(refs, u) == 1 then [Target(u, worker, false)] else []
    case Internal(step) => if step.Target? then [] else [step]
  }

  function Handle(api: Api, e: Event, batch: BatchSize): (r: Api) {
    var world := Run(api.world, Call(api.refs, e), batch);
    match e
    case Connect(u, _) =>
      var n := Ref(api.refs, u);
      Api(api.refs[u := n + 1], if n == 0 then api.online + 1 else api.online, api.total + 1, world)
    case Disconnect(u, _) =>
      var n := Ref(api.refs, u);
      Api(api.refs[u := n - 1], if n == 1 then api.online - 1 else api.online, api.total, world)
    case Internal(_) => api.(world := world)
  }

  function Fresh(remote: map<Uuid, bool>): (api: Api) {
    Api(map[], 0, 0, Start(remote))
  }

  function Serve(remote: map<Uuid, bool>, events: seq<Event>, batch: BatchSize): (api: Api) {
    if events == [] then Fresh(remote)
    else Handle(Serve(remote, events[..|events| - 1], batch), events[|events| - 1], batch)
  }

  /** The steps of the reporter that a sequence of events causes. */
  function Trace(remote: map<Uuid, bool>, events: seq<Event>, batch: BatchSize): (steps: seq<Step>) {
    if events == [] then [] else
      var n := |events| - 1;
      Trace(remote, events[..n], batch) + Call(Serve(remote, events[..n], batch).refs, events[n])
  }

  /** Connects minus disconnects. */
  function Weight(e: Event, u: Uuid): (n: int) {
    match e
    case Connect(v, _) => if v == u then 1 else 0
    case Disconnect(v, _) => if v == u then -1 else 0
    case Internal(_) => 0
  }

  function Balance(events: seq<Event>, u: Uuid): (n: int) {
    if events == [] then 0 else Balance(events[..|events| - 1], u) + Weight(events[|events| - 1], u)
  }

  function Online(refs: map<Uuid, int>): (us: set<Uuid>) {
    set u | u in refs && refs[u] >= 1
  }

  lemma SingleCall(w: World, step: Step, batch: BatchSize)
    ensures Run(w, [step], batch) == Next(w, step, batch) && Run(w, [], batch) == w
  {
    assert [step][..0] == [];
  }

  lemma HandleConnect(api: Api, u: Uuid, worker: int, batch: BatchSize)
    ensures var n := Ref(api.refs, u);
            Handle(api, Connect(u, worker), batch)
            == Api(api.refs[u := n + 1], if n == 0 then api.online + 1 else api.online, api.total + 1,
                   if n >= 0 then api.world.(s := SetConnected(api.world.s, u, worker, true, batch)) else api.world)
  {
    SingleCall(api.world, Target(u, worker, true), batch);
  }

  lemma HandleDisconnect(api: Api, u: Uuid, worker: int, batch: BatchSize)
    ensures var n := Ref(api.refs, u);
            Handle(api, Disconnect(u, worker), batch)
            == Api(api.refs[u := n - 1], if n == 1 then api.online - 1 else api.online, api.total,
                   if n == 1 then api.world.(s := SetConnected(api.world.s, u, worker, false, batch)) else api.world)
  {
    SingleCall(api.world, Target(u, worker, false), batch);
  }

  // ---------------------------------------------------------------------------------------
  // Reference counts, gauge and targets
  // ---------------------------------------------------------------------------------------

  lemma {:induction false} RefIsBalance(remote: map<Uuid, bool>, events: seq<Event>, batch: BatchSize, u: Uuid)
    ensures Ref(Serve(remote, events, batch).refs, u) == Balance(events, u)
  {
    if events != [] {
      RefIsBalance(remote, events[..|events| - 1], batch, u);
    }
  }

  lemma OnlineUpdate(refs: map<Uuid, int>, u: Uuid, n: int)
    requires n == Ref(refs, u) + 1 || n == Ref(refs, u) - 1
    ensures |Online(refs[u := n])| - |Online(refs)|
            == (if n == 1 && Ref(refs, u) == 0 then 1 else 0) - (if n == 0 && Ref(refs, u) == 1 then 1 else 0)
  {
    var before, after := Online(refs), Online(refs[u := n]);
    if n >= 1 && Ref(refs, u) < 1 {
      assert after == before + {u} && u !in before;
    } else if n < 1 && Ref(refs, u) >= 1 {
      assert after == before - {u} && u in before;
    } else {
      assert after == before;
    }
  }

  /** In every prefix the gauge is the number of uuids whose count is at least one. */
  lemma {:induction false} GaugeCountsOnline(remote: map<Uuid, bool>, events: seq<Event>, batch: BatchSize)
    ensures var api := Serve(remote, events, batch); api.online == |Online(api.refs)|
  {
    hide Run, Call;
    if events != [] {
      var n := |events| - 1;
      var api := Serve(remote, events[..n], batch);
      GaugeCountsOnline(remote, events[..n], batch);
      match events[n]
      case Connect(u, _) => OnlineUpdate(api.refs, u, Ref(api.refs, u) + 1);
      case Disconnect(u, _) => OnlineUpdate(api.refs, u, Ref(api.refs, u) - 1);
      case Internal(_) =>
    }
  }

  function Connects(events: seq<Event>): (n: nat) {
    if events == [] then 0 else Connects(events[..|events| - 1]) + if events[|events| - 1].Connect? then 1 else 0
  }

  /** The running total counts every connect, in or out of order. */
  lemma {:induction false} TotalCountsConnects(remote: map<Uuid, bool>, events: seq<Event>, batch: BatchSize)
    ensures Serve(remote, events, batch).total == Connects(events)
  {
    if events != [] { TotalCountsConnects(remote, events[..|events| - 1], batch); }
  }

  /** A target is "connected" exactly for the uuids whose count is at least one. */
  ghost predicate TargetsFollow(api: Api) {
    var devices := api.world.s.devices;
    && (forall u :: u in devices ==> devices[u].targetConnected == (Ref(api.refs, u) >= 1))
    && (forall u :: u !in devices ==> Ref(api.refs, u) <= 0)
  }

  lemma HandleKeepsTargets(api: Api, e: Event, batch: BatchSize)
    requires TargetsFollow(api)
    ensures TargetsFollow(Handle(api, e, batch))
  {
    hide Next;
    var call := Call(api.refs, e);
    if call != [] {
      assert call == [call[0]];
      SingleCall(api.world, call[0], batch);
      TargetsAfter(api.world, call[0], batch);
    }
  }

  lemma {:induction false} TargetsFollowCounts(remote: map<Uuid, bool>, events: seq<Event>, batch: BatchSize)
    ensures TargetsFollow(Serve(remote, events, batch))
  {
    if events != [] {
      var n := |events| - 1;
      TargetsFollowCounts(remote, events[..n], batch);
      HandleKeepsTargets(Serve(remote, events[..n], batch), events[n], batch);
    }
  }

  /**
   The worker of the last post about `u` that was passed on: a connect when the balance was not
   negative, a disconnect when it was one.
   */
  function LastWorker(events: seq<Event>, u: Uuid): (worker: Option<int>) {
    if events == [] then None
    else
      var before, e := events[..|events| - 1], events[|events| - 1];
      if e.Connect? && e.uuid == u && Balance(before, u) >= 0 then Some(e.worker)
      else if e.Disconnect? && e.uuid == u && Balance(before, u) == 1 then Some(e.worker)
      else LastWorker(before, u)
  }

  lemma HandleWorker(api: Api, e: Event, batch: BatchSize, u: Uuid)
    ensures var d, t := api.world.s.devices, Handle(api, e, batch).world.s.devices;
            var passed := || (e.Connect? && e.uuid == u && Ref(api.refs, u) >= 0)
                          || (e.Disconnect? && e.uuid == u && Ref(api.refs, u) == 1);
            && (u in t <==> u in d || passed)
            && (u in t ==> t[u].targetWorker == if passed then e.worker else d[u].targetWorker)
  {
    var call := Call(api.refs, e);
    if call != [] {
      SingleCall(api.world, call[0], batch);
      TargetsAfter(api.world, call[0], batch);
      hide Next;
      assert call == [call[0]];
    }
  }

  /** The target worker of a device is the worker of the last post about it that was passed on. */
  lemma {:induction false} TargetWorkerIsLast(remote: map<Uuid, bool>, events: seq<Event>, batch: BatchSize, u: Uuid)
    ensures var devices := Serve(remote, events, batch).world.s.devices;
            && (u in devices <==> LastWorker(events, u).Some?)
            && (u in devices ==> devices[u].targetWorker == LastWorker(events, u).value)
  {
    if events == [] {
      return;
    }
    hide Handle;
    var before := events[..|events| - 1];
    TargetWorkerIsLast(remote, before, batch, u);
    RefIsBalance(remote, before, batch, u);
    HandleWorker(Serve(remote, before, batch), events[|events| - 1], batch, u);
  }

  // ---------------------------------------------------------------------------------------
  // End to end
  // ---------------------------------------------------------------------------------------

  lemma {:induction false} ServeRunsTrace(remote: map<Uuid, bool>, events: seq<Event>, batch: BatchSize)
    ensures Serve(remote, events, batch).world == Run(Start(remote), Trace(remote, events, batch), batch)
  {
    if events != [] {
      var n := |events| - 1;
      var api := Serve(remote, events[..n], batch);
      ServeRunsTrace(remote, events[..n], batch);
      RunAppend(Start(remote), Trace(remote, events[..n], batch), Call(api.refs, events[n]), batch);
    }
  }

  /** The service and its remote table agree about `u`. */
  predicate Agrees(api: Api, u: Uuid, connected: bool) {
    u in api.world.remote && api.world.remote[u] == connected
  }

  /**
   For every interleaving of posts, rounds, request successes, failures and lost answers: when the
   reporter is idle, nothing is pending, and the remote value of each uuid it was told about is
   "connected" exactly when connects minus disconnects is at least one, if and only if no answer
   to a change of that uuid was lost without a later request for it taking effect. A uuid it was
   not told about has a balance of at most zero, and its remote value was never written.
   */
  lemma EndToEnd(remote: map<Uuid, bool>, events: seq<Event>, batch: BatchSize, u: Uuid)
    ensures var api := Serve(remote, events, batch);
            !api.world.s.reporting ==>
              && api.world.s.pending == []
              && (u in api.world.s.devices ==>
                    (Agrees(api, u, Balance(events, u) >= 1) <==>
                     !Stale(remote, Trace(remote, events, batch), batch, u)))
              && (u !in api.world.s.devices ==>
                    Balance(events, u) <= 0 && (forall c :: Agrees(api, u, c) <==> u in remote && remote[u] == c))
  {
    var steps := Trace(remote, events, batch);
    ServeRunsTrace(remote, events, batch);
    RefIsBalance(remote, events, batch, u);
    TargetsFollowCounts(remote, events, batch);
    Reachable(remote, steps, batch);
    IdleAgreement(remote, steps, batch, u);
    hide Stale, Trace;
    UntrackedUntouched(remote, steps, batch, u);
  }

  ghost predicate NoLoss(events: seq<Event>) {
    forall k :: 0 <= k < |events| ==> !(events[k].Internal? && events[k].step.Lost?)
  }

  lemma {:induction false} TraceLossless(remote: map<Uuid, bool>, events: seq<Event>, batch: BatchSize)
    requires NoLoss(events)
    ensures Lossless(Trace(remote, events, batch))
  {
    hide Serve;
    if events != [] {
      TraceLossless(remote, events[..|events| - 1], batch);
    }
  }

  /** Without lost answers the agreement is unconditional. */
  lemma EndToEndLossless(remote: map<Uuid, bool>, events: seq<Event>, batch: BatchSize)
    requires NoLoss(events)
    ensures var api := Serve(remote, events, batch);
            !api.world.s.reporting ==>
              forall u :: u in api.world.s.devices ==> Agrees(api, u, Balance(events, u) >= 1)
  {
    var api := Serve(remote, events, batch);
    ServeRunsTrace(remote, events, batch);
    TraceLossless(remote, events, batch);
    forall u | u in api.world.s.devices && !api.world.s.reporting ensures Agrees(api, u, Balance(events, u) >= 1) {
      EndToEnd(remote, events, batch, u);
    }
  }

  // ---------------------------------------------------------------------------------------
  // Order independence
  // ---------------------------------------------------------------------------------------

  /** The posts among the events. */
  function Posts(events: seq<Event>): (r: seq<Event>) {
    if events == [] then [] else
      var n := |events| - 1;
      Posts(events[..n]) + if events[n].Internal? then [] else [events[n]]
  }

  lemma {:induction false} BalanceOfPosts(events: seq<Event>, u: Uuid)
    ensures Balance(Posts(events), u) == Balance(events, u)
  {
    if events != [] {
      var n := |events| - 1;
      BalanceOfPosts(events[..n], u);
      var before := Posts(events[..n]);
      assert (before + [events[n]])[..|before|] == before;
      if events[n].Internal? {
        assert Posts(events) == before;
      } else {
        assert Posts(events) == before + [events[n]];
      }
    }
  }

  lemma {:induction false} BalanceAppend(a: seq<Event>, b: seq<Event>, u: Uuid)
    ensures Balance(a + b, u) == Balance(a, u) + Balance(b, u)
  {
    if b == [] {
      assert a + b == a;
    } else {
      var n := |b| - 1;
      BalanceAppend(a, b[..n], u);
      assert (a + b)[..|a| + n] == a + b[..n];
    }
  }

  lemma BalanceWithout(b: seq<Event>, i: nat, u: Uuid)
    requires i < |b|
    ensures multiset(Drop(b, i)) == multiset(b) - multiset{b[i]}
    ensures Balance(b, u) == Balance(Drop(b, i), u) + Weight(b[i], u)
  {
    assert b == b[..i] + ([b[i]] + b[i + 1..]);
    BalanceAppend(b[..i], [b[i]] + b[i + 1..], u);
    BalanceAppend([b[i]], b[i + 1..], u);
    BalanceAppend(b[..i], b[i + 1..], u);
    assert [b[i]][..0] == [];
    assert Balance([b[i]], u) == Weight(b[i], u);
  }

  lemma {:induction false} BalancePermutes(a: seq<Event>, b: seq<Event>, u: Uuid)
    requires multiset(a) == multiset(b)
    ensures Balance(a, u) == Balance(b, u)
    decreases |a|
  {
    if a == [] {
      assert |multiset(b)| == 0;
      assert b == [];
    } else {
      assert a[0] in multiset(b);
      var i :| 0 <= i < |b| && b[i] == a[0];
      BalanceWithout(a, 0, u);
      BalanceWithout(b, i, u);
      BalancePermutes(Drop(a, 0), Drop(b, i), u);
    }
  }

  /** The uuids whose target is "connected". */
  function ConnectedTargets(api: Api): (us: set<Uuid>) {
    set u | u in api.world.s.devices && api.world.s.devices[u].targetConnected
  }

  lemma ConnectedTargetsAreOnline(api: Api)
    requires TargetsFollow(api)
    ensures ConnectedTargets(api) == Online(api.refs)
  {
  }

  /**
   Two runs with the same posts in different orders, and any reporter steps in between, end with
   the same counts, the same gauge and the same set of "connected" targets.
   */
  lemma OrderIndependence(remote: map<Uuid, bool>, a: seq<Event>, b: seq<Event>, batch: BatchSize)
    requires multiset(Posts(a)) == multiset(Posts(b))
    ensures var x, y := Serve(remote, a, batch), Serve(remote, b, batch);
            && (forall u :: Ref(x.refs, u) == Ref(y.refs, u))
            && x.online == y.online
            && ConnectedTargets(x) == ConnectedTargets(y)
  {
    var x, y := Serve(remote, a, batch), Serve(remote, b, batch);
    forall u ensures Ref(x.refs, u) == Ref(y.refs, u) {
      RefIsBalance(remote, a, batch, u);
      RefIsBalance(remote, b, batch, u);
      BalanceOfPosts(a, u);
      BalanceOfPosts(b, u);
      BalancePermutes(Posts(a), Posts(b), u);
    }
    forall u ensures u in Online(x.refs) <==> u in Online(y.refs) {
      assert Ref(x.refs, u) == Ref(y.refs, u);
    }
    assert Online(x.refs) == Online(y.refs);
    GaugeCountsOnline(remote, a, batch);
    GaugeCountsOnline(remote, b, batch);
    TargetsFollowCounts(remote, a, batch);
    TargetsFollowCounts(remote, b, batch);
    ConnectedTargetsAreOnline(x);
    ConnectedTargetsAreOnline(y);
  }
}

/** The two handlers of `apiFactory` as an object, proved against module ClientApi. */
module ClientApiCode {
  import opened Sequences
  import Reporter
  import opened ClientApi
  import opened ReporterCode

  class ApiServer {
    var clientRefCount: map<Reporter.Uuid, int>
    var onlineDevices: int
    var totalDevices: nat
    const setConnected: DeviceReporter

    /** The handler's view of the specification state, for a given remote table. */
    ghost function Model(remote: map<Reporter.Uuid, bool>): (api: Api)
      reads this, setConnected
    {
      Api(clientRefCount, onlineDevices, totalDevices, Reporter.World(setConnected.Model(), remote))
    }

    constructor (reporter: DeviceReporter)
      ensures setConnected == reporter && clientRefCount == map[] && onlineDevices == 0 && totalDevices == 0
    {
      setConnected := reporter;
      clientRefCount, onlineDevices, totalDevices := map[], 0, 0;
    }

    /** POST /api/v2/:worker/clients/ */
    method PostClient(commonName: Option<Reporter.Uuid>, worker: int,
                      ghost remote: map<Reporter.Uuid, bool>) returns (status: nat)
      requires setConnected.Valid()
      modifies this, setConnected
      ensures setConnected.Valid()
      ensures status == if commonName.None? then 400 else 200
      ensures commonName.None? ==> Model(remote) == old(Model(remote))
      ensures commonName.Some? ==>
                Model(remote)
                == Handle(old(Model(remote)), Connect(commonName.value, worker), setConnected.batchSize)
    {
      hide Handle, Reporter.SetConnected, Reporter.Inv, Reporter.Run, Call;
      if commonName.None? {
        return 400;
      }
      status := 200;
      var uuid := commonName.value;
      HandleConnect(Model(remote), uuid, worker, setConnected.batchSize);
      var startingRefCount := Ref(clientRefCount, uuid);
      clientRefCount := clientRefCount[uuid := startingRefCount + 1];
      if startingRefCount == 0 {
        onlineDevices := onlineDevices + 1;
      }
      totalDevices := totalDevices + 1;
      if startingRefCount >= 0 {
        setConnected.SetConnected(uuid, worker, true);
      }
    }

    /** DELETE /api/v2/:worker/clients/ */
    method DeleteClient(commonName: Option<Reporter.Uuid>, worker: int,
                      ghost remote: map<Reporter.Uuid, bool>) returns (status: nat)
      requires setConnected.Valid()
      modifies this, setConnected
      ensures setConnected.Valid()
      ensures status == 200 <==> commonName.Some? && Ref(old(clientRefCount), commonName.value) == 1
      ensures status == 200 || status == 400
      ensures commonName.None? ==> Model(remote) == old(Model(remote))
      ensures commonName.Some? ==>
                Model(remote)
                == Handle(old(Model(remote)), Disconnect(commonName.value, worker), setConnected.batchSize)
    {
      hide Handle, Reporter.SetConnected, Reporter.Inv, Reporter.Run, Call;
      if commonName.None? {
        return 400;
      }
      var uuid := commonName.value;
      HandleDisconnect(Model(remote), uuid, worker, setConnected.batchSize);
      var startingRefCount := Ref(clientRefCount, uuid);
      clientRefCount := clientRefCount[uuid := startingRefCount - 1];
      if startingRefCount != 1 {
        return 400;
      }
      status := 200;
      onlineDevices := onlineDevices - 1;
      setConnected.SetConnected(uuid, worker, false);
    }
  }
}
