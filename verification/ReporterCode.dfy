/** The closure of src/utils/clients.ts as an object, proved against the steps of module Reporter. */
module ReporterCode {
  import opened Sequences
  import opened Reporter

  function Rest<T>(s: seq<T>, i: nat): (r: seq<T>) {
    if i < |s| then s[i..] else []
  }

  lemma NextChunk<T>(arr: seq<T>, i: nat, size: BatchSize)
    requires i < |arr|
    ensures var end := if i + size < |arr| then i + size else |arr|;
            Chunks(Rest(arr, i), size) == [arr[i..end]] + Chunks(Rest(arr, i + size), size)
  {
    if i + size < |arr| {
      assert arr[i..][size..] == arr[i + size..] && arr[i..][..size] == arr[i..i + size];
    } else {
      assert arr[i..] == arr[i..|arr|];
    }
  }

  /** The slicing loop; its result is an order-preserving partition into bounded pieces. */
  method Chunk<T>(arr: seq<T>, size: BatchSize) returns (result: seq<seq<T>>)
    ensures Flatten(result) == arr
    ensures forall k :: 0 <= k < |result| ==> 1 <= |result[k]| <= size
    ensures forall k :: 0 <= k < |result| - 1 ==> |result[k]| == size
    ensures result == Chunks(arr, size)
  {
    assert [] + Chunks(arr, size) == Chunks(arr, size);
    assert Rest(arr, |arr|) == [] && Chunks<T>([], size) == [];
    hide Chunks;
    result := [];
    var i := 0;
    while i < |arr|
      invariant 0 <= i
      invariant result + Chunks(Rest(arr, i), size) == Chunks(arr, size)
    {
      var end := if i + size < |arr| then i + size else |arr|;
      NextChunk(arr, i, size);
      ConcatAssociative(result, [arr[i..end]], Chunks(Rest(arr, i + size), size));
      result := result + [arr[i..end]];
      i := i + size;
    }
    assert result == result + Chunks(Rest(arr, i), size);
    ChunksPartition(arr, size);
  }

  lemma ConfirmNone(devices: map<Uuid, Device>, q: Request)
    ensures Confirm(devices, q.uuids[..0], q.connected) == devices
  {
  }

  /** Confirming one more uuid of a request. */
  lemma ConfirmOne(devices: map<Uuid, Device>, q: Request, k: nat)
    requires k < |q.uuids| && NoDuplicates(q.uuids) && q.uuids[k] in devices
    ensures var u, before := q.uuids[k], Confirm(devices, q.uuids[..k], q.connected);
            && u in before && before[u] == devices[u]
            && Confirm(devices, q.uuids[..k + 1], q.connected)
               == before[u := devices[u].(currentConnected := Some(q.connected),
                                          currentWorker := Some(devices[u].targetWorker))]
  {
    assert q.uuids[..k + 1] == q.uuids[..k] + [q.uuids[k]];
    assert q.uuids[k] !in q.uuids[..k];
  }

  lemma AddNone(s: seq<Uuid>, xs: seq<Uuid>)
    ensures AddAll(s, xs[..0]) == s
  {
  }

  lemma AddOne(s: seq<Uuid>, xs: seq<Uuid>, k: nat)
    requires k < |xs|
    ensures AddAll(s, xs[..k + 1]) == Add(AddAll(s, xs[..k]), xs[k])
  {
    hide Add;
    assert xs[..k + 1][..k] == xs[..k];
  }

  class DeviceReporter {
    var deviceStates: map<Uuid, Device>
    var pendingUpdates: seq<Uuid>
    var currentlyReporting: bool
    /** The requests that were posted and have not settled. */
    var inflight: seq<Request>
    const batchSize: BatchSize

    ghost function Model(): (s: State)
      reads this
    {
      State(deviceStates, pendingUpdates, currentlyReporting, inflight)
    }

    ghost predicate Valid()
      reads this
    {
      Inv(Model(), batchSize)
    }

    constructor (batchSize: BatchSize)
      ensures Valid() && Model() == EMPTY && this.batchSize == batchSize
    {
      this.batchSize := batchSize;
      deviceStates, pendingUpdates, currentlyReporting, inflight := map[], [], false, [];
    }

    /** `reportUpdates` up to its await: one request per chunk. */
    method ReportUpdates(uuids: seq<Uuid>, connected: bool)
      modifies this`inflight
      ensures inflight == old(inflight) + Requests(uuids, connected, batchSize)
    {
      if |uuids| == 0 {
        assert Requests(uuids, connected, batchSize) == [];
        return;
      }
      var chunks := Chunk(uuids, batchSize);
      ghost var all := Requests(uuids, connected, batchSize);
      for k := 0 to |chunks|
        invariant inflight == old(inflight) + all[..k]
      {
        inflight := inflight + [Request(chunks[k], connected)];
        assert all[..k + 1] == all[..k] + [all[k]];
      }
    }

    /** The loop over `pendingUpdates`. */
    method Snapshot() returns (disconnects: seq<Uuid>, connects: seq<Uuid>)
      requires Tracked(Model())
      ensures disconnects == Select(deviceStates, pendingUpdates, false)
      ensures connects == Select(deviceStates, pendingUpdates, true)
    {
      disconnects, connects := [], [];
      for k := 0 to |pendingUpdates|
        invariant disconnects == Select(deviceStates, pendingUpdates[..k], false)
        invariant connects == Select(deviceStates, pendingUpdates[..k], true)
      {
        var uuid := pendingUpdates[k];
        assert pendingUpdates[..k + 1][..k] == pendingUpdates[..k];
        var d := deviceStates[uuid];
        if Some(d.targetConnected) != d.currentConnected || Some(d.targetWorker) != d.currentWorker {
          if d.targetConnected {
            connects := connects + [uuid];
          } else {
            disconnects := disconnects + [uuid];
          }
        }
      }
      assert pendingUpdates[..|pendingUpdates|] == pendingUpdates;
    }

    /** `updateLoop` up to its first await. */
    method UpdateLoop()
      requires Tracked(Model()) && (!currentlyReporting ==> inflight == [])
      modifies this
      ensures Model() == Reporter.UpdateLoop(old(Model()), batchSize)
    {
      if currentlyReporting || pendingUpdates == [] {
        return;
      }
      currentlyReporting := true;
      var disconnects, connects := Snapshot();
      pendingUpdates := [];
      ReportUpdates(disconnects, false);
      ReportUpdates(connects, true);
    }

    /** The exported `setConnected`. */
    method SetConnected(uuid: Uuid, worker: int, connected: bool)
      requires Valid()
      modifies this
      ensures Valid()
      ensures Model() == Reporter.SetConnected(old(Model()), uuid, worker, connected, batchSize)
    {
      TargetKeepsInv(Model(), uuid, worker, connected, batchSize);
      if uuid !in deviceStates {
        deviceStates := deviceStates[uuid := Device(connected, worker, None, None)];
      } else {
        deviceStates := deviceStates[uuid := deviceStates[uuid].(targetConnected := connected, targetWorker := worker)];
      }
      pendingUpdates := Add(pendingUpdates, uuid);
      UpdateLoop();
    }

    /** Request `i` was answered with status 200. */
    method RequestSucceeded(i: nat)
      requires Valid() && i < |inflight|
      modifies this
      ensures Valid() && Model() == Succeed(old(Model()), i)
    {
      var q := inflight[i];
      assert NoDuplicates(q.uuids) && forall u :: u in q.uuids ==> u in deviceStates;
      hide Inv, Drop;
      SuccessKeepsInv(Model(), i, batchSize);
      hide Confirm, NoDuplicates;
      ConfirmNone(deviceStates, q);
      for k := 0 to |q.uuids|
        invariant Model() == old(Model()).(devices := deviceStates)
        invariant deviceStates == Confirm(old(deviceStates), q.uuids[..k], q.connected)
      {
        var uuid := q.uuids[k];
        ConfirmOne(old(deviceStates), q, k);
        var d := deviceStates[uuid];
        d := d.(currentConnected := Some(q.connected), currentWorker := Some(d.targetWorker));
        deviceStates := deviceStates[uuid := d];
      }
      assert q.uuids[..|q.uuids|] == q.uuids;
      inflight := Drop(inflight, i);
    }

    /** Request `i` timed out or was answered with another status. */
    method RequestFailed(i: nat)
      requires Valid() && i < |inflight|
      modifies this
      ensures Valid() && Model() == Fail(old(Model()), i)
    {
      hide Inv, Drop, AddAll, Add;
      AddNone(pendingUpdates, inflight[i].uuids);
      FailureKeepsInv(Model(), i, batchSize);
      var q := inflight[i];
      for k := 0 to |q.uuids|
        invariant Model() == old(Model()).(pending := pendingUpdates)
        invariant pendingUpdates == AddAll(old(pendingUpdates), q.uuids[..k])
      {
        AddOne(old(pendingUpdates), q.uuids, k);
        pendingUpdates := Add(pendingUpdates, q.uuids[k]);
      }
      assert q.uuids[..|q.uuids|] == q.uuids;
      inflight := Drop(inflight, i);
    }

    /** The `finally` block after its pause. */
    method RoundOver()
      requires Valid() && currentlyReporting && inflight == []
      modifies this
      ensures Valid() && Model() == EndRound(old(Model()), batchSize)
    {
      UpdateLoopKeepsInv(Model().(reporting := false), batchSize);
      currentlyReporting := false;
      UpdateLoop();
    }
  }
}
