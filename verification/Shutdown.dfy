/**
 Draining the workers and leaving the primary: src/vpn-worker.ts and src/init-primary.ts.

 A worker's drain walks its client cache while new clients may still be added to it, killing one
 client at a time with a pause in between, and then reports to the primary. A drain can be
 started more than once, since the signal listeners hold the original function. A worker process
 that ends is forked again under the same id. The primary leaves once enough distinct ids have
 reported.
 */
module Shutdown {

  datatype Client = Client(id: nat, uuid: string)

  /** One drain: the position of its iterator and the number of clients it counted at the start. */
  datatype Drain = Drain(next: nat, count: nat, finished: bool)

  /** `kills` are the kills issued so far, in order. */
  datatype Worker = Worker(cache: seq<Client>, drains: seq<Drain>, kills: seq<Client>)

  const IDLE: Worker := Worker([], [], [])

  // ---------------------------------------------------------------------------------------
  // A worker
  // ---------------------------------------------------------------------------------------

  function Find(cache: seq<Client>, id: nat): (i: nat)
    ensures i <= |cache| && (i < |cache| ==> cache[i].id == id)
    ensures forall k :: 0 <= k < i ==> cache[k].id != id
  {
    if cache == [] || cache[0].id == id then 0 else 1 + Find(cache[1..], id)
  }

  /** `Map.set`: a present key keeps its place in the iteration order. */
  function SetClient(cache: seq<Client>, c: Client): (r: seq<Client>) {
    var i := Find(cache, c.id);
    if i < |cache| then cache[i := c] else cache + [c]
  }

  function Establish(w: Worker, c: Client): (r: Worker) {
    w.(cache := SetClient(w.cache, c))
  }

  /** One turn of the drain loop: kill the next client, or report when there is none. */
  function Turn(w: Worker, k: nat): (r: Worker)
    requires k < |w.drains|
  {
    var d := w.drains[k];
    if d.finished then w
    else if d.next < |w.cache| then
      w.(drains := w.drains[k := d.(next := d.next + 1)], kills := w.kills + [w.cache[d.next]])
    else w.(drains := w.drains[k := d.(finished := true)])
  }

  /** The report to the primary is sent by the turn that finds no further client. */
  predicate TurnReports(w: Worker, k: nat)
    requires k < |w.drains|
  {
    !w.drains[k].finished && w.drains[k].next >= |w.cache|
  }

  /** A drain starts with the first turn of its loop in the same stretch of code. */
  function Opened(w: Worker): (r: Worker) {
    w.(drains := w.drains + [Drain(0, |w.cache|, false)])
  }

  function Begin(w: Worker): (r: Worker) {
    Turn(Opened(w), |w.drains|)
  }

  ghost predicate WorkerInv(w: Worker) {
    && (forall k :: 0 <= k < |w.drains| ==> w.drains[k].next <= |w.cache| && w.drains[k].count <= |w.cache|)
    && (forall i, j :: 0 <= i < j < |w.cache| ==> w.cache[i].id != w.cache[j].id)
  }

  // ---------------------------------------------------------------------------------------
  // The life of a worker process
  // ---------------------------------------------------------------------------------------

  datatype Act = Set(client: Client) | Start | Advance(k: nat)

  function Perform(w: Worker, a: Act): (r: Worker) {
    match a
    case Set(c) => Establish(w, c)
    case Start => Begin(w)
    case Advance(k) => if k < |w.drains| then Turn(w, k) else w
  }

  /** The act makes the worker send its report. */
  predicate ActReports(w: Worker, a: Act) {
    match a
    case Set(_) => false
    case Start => TurnReports(Opened(w), |w.drains|)
    case Advance(k) => k < |w.drains| && TurnReports(w, k)
  }

  function Live(acts: seq<Act>): (w: Worker) {
    if acts == [] then IDLE else Perform(Live(acts[..|acts| - 1]), acts[|acts| - 1])
  }

  lemma LiveSnoc(acts: seq<Act>, a: Act)
    ensures Live(acts + [a]) == Perform(Live(acts), a)
  {
    assert (acts + [a])[..|acts|] == acts;
  }

  lemma PerformKeepsInv(w: Worker, a: Act)
    requires WorkerInv(w)
    ensures WorkerInv(Perform(w, a))
  {
  }

  lemma {:induction false} LiveInv(acts: seq<Act>)
    ensures WorkerInv(Live(acts))
  {
    hide Perform, WorkerInv;
    if acts == [] {
      assert WorkerInv(IDLE) by { IdleInv(); }
    } else {
      LiveInv(acts[..|acts| - 1]);
      PerformKeepsInv(Live(acts[..|acts| - 1]), acts[|acts| - 1]);
    }
  }

  lemma IdleInv()
    ensures WorkerInv(IDLE)
  {
  }

  /** When `id` was last set. */
  function LastSet(acts: seq<Act>, id: nat): (t: nat)
    ensures t <= |acts|
  {
    if acts == [] then 0
    else if acts[|acts| - 1].Set? && acts[|acts| - 1].client.id == id then |acts| - 1
    else LastSet(acts[..|acts| - 1], id)
  }

  /** The worker just before its entry `i` was last set. */
  function BeforeSet(acts: seq<Act>, i: nat): (w: Worker)
    requires i < |Live(acts).cache|
  {
    Live(acts[..LastSet(acts, Live(acts).cache[i].id)])
  }

  /** Among the kills issued since entry `i` was last set is one for it. */
  predicate KilledSinceSet(acts: seq<Act>, i: nat)
    requires i < |Live(acts).cache|
  {
    var kills, before := Live(acts).kills, |BeforeSet(acts, i).kills|;
    before <= |kills| && Live(acts).cache[i] in kills[before..]
  }

  /** A drain that had not passed position `i` in `before` has passed it in `now`. */
  predicate Passes(before: Worker, now: Worker, i: nat) {
    exists d :: 0 <= d < |now.drains| && PassesAt(before, now, i, d)
  }

  predicate PassesAt(before: Worker, now: Worker, i: nat, d: nat)
    requires d < |now.drains|
  {
    now.drains[d].next > i && (d < |before.drains| ==> before.drains[d].next <= i)
  }

  // ---------------------------------------------------------------------------------------
  // The cache, from the acts
  // ---------------------------------------------------------------------------------------

  predicate Sets(a: Act, id: nat) {
    a.Set? && a.client.id == id
  }

  ghost predicate WasSet(acts: seq<Act>, id: nat) {
    exists k :: 0 <= k < |acts| && Sets(acts[k], id)
  }

  /** `x` was set before `y` was set for the first time. */
  ghost predicate SetBefore(acts: seq<Act>, x: nat, y: nat) {
    exists k :: 0 <= k < |acts| && Sets(acts[k], x) && forall j :: 0 <= j <= k ==> !Sets(acts[j], y)
  }

  ghost predicate InCache(cache: seq<Client>, id: nat) {
    exists i :: 0 <= i < |cache| && cache[i].id == id
  }

  lemma WasSetSnoc(acts: seq<Act>, a: Act, id: nat)
    ensures WasSet(acts + [a], id) <==> WasSet(acts, id) || Sets(a, id)
  {
    var all := acts + [a];
    assert all[|acts|] == a;
    if k :| 0 <= k < |acts| && Sets(acts[k], id) {
      assert Sets(all[k], id);
    }
  }

  lemma SetBeforeSnoc(acts: seq<Act>, a: Act, x: nat, y: nat)
    requires SetBefore(acts, x, y)
    ensures SetBefore(acts + [a], x, y)
  {
    var all := acts + [a];
    var k :| 0 <= k < |acts| && Sets(acts[k], x) && forall j :: 0 <= j <= k ==> !Sets(acts[j], y);
    assert Sets(all[k], x);
    assert forall j :: 0 <= j <= k ==> all[j] == acts[j];
  }

  lemma FirstTime(acts: seq<Act>, a: Act, x: nat, y: nat)
    requires WasSet(acts, x) && !WasSet(acts, y)
    ensures SetBefore(acts + [a], x, y)
  {
    var all := acts + [a];
    var k :| 0 <= k < |acts| && Sets(acts[k], x);
    assert Sets(all[k], x);
    assert forall j :: 0 <= j <= k ==> all[j] == acts[j] && !Sets(acts[j], y);
  }

  lemma {:induction false} CacheIds(acts: seq<Act>, id: nat)
    ensures InCache(Live(acts).cache, id) <==> WasSet(acts, id)
  {
    if acts == [] {
      return;
    }
    hide Live, WasSet;
    var before, a := acts[..|acts| - 1], acts[|acts| - 1];
    assert acts == before + [a];
    CacheIds(before, id);
    LiveSnoc(before, a);
    WasSetSnoc(before, a, id);
    PerformIds(Live(before), a, id);
  }

  lemma PerformIds(w: Worker, a: Act, id: nat)
    ensures InCache(Perform(w, a).cache, id) <==> InCache(w.cache, id) || Sets(a, id)
  {
    var t := Perform(w, a);
    if a.Set? {
      var n := Find(w.cache, a.client.id);
      assert t.cache[n] == a.client;
      if i :| 0 <= i < |w.cache| && w.cache[i].id == id {
        assert t.cache[i].id == id;
      }
    }
  }

  /**
   The cache from the acts: it holds the clients last set for every id ever set, in the order in
   which the ids were first set.
   */
  lemma CacheExact(acts: seq<Act>)
    ensures forall id: nat :: InCache(Live(acts).cache, id) <==> WasSet(acts, id)
    ensures forall i :: 0 <= i < |Live(acts).cache| ==>
              var c := Live(acts).cache[i]; LastSet(acts, c.id) < |acts| && acts[LastSet(acts, c.id)] == Set(c)
    ensures forall i, j :: 0 <= i < j < |Live(acts).cache| ==>
              SetBefore(acts, Live(acts).cache[i].id, Live(acts).cache[j].id)
  {
    forall id: nat ensures InCache(Live(acts).cache, id) <==> WasSet(acts, id) {
      CacheIds(acts, id);
    }
    forall i | 0 <= i < |Live(acts).cache|
      ensures var c := Live(acts).cache[i]; LastSet(acts, c.id) < |acts| && acts[LastSet(acts, c.id)] == Set(c)
    {
      EntryLastSet(acts, i);
    }
    forall i, j | 0 <= i < j < |Live(acts).cache|
      ensures SetBefore(acts, Live(acts).cache[i].id, Live(acts).cache[j].id)
    {
      EntriesInOrder(acts, i, j);
    }
  }

  lemma {:induction false} EntryLastSet(acts: seq<Act>, i: nat)
    requires i < |Live(acts).cache|
    ensures var c := Live(acts).cache[i]; LastSet(acts, c.id) < |acts| && acts[LastSet(acts, c.id)] == Set(c)
  {
    var n := |acts| - 1;
    var w, a := Live(acts[..n]), acts[n];
    LiveInv(acts[..n]);
    if Sets(a, Live(acts).cache[i].id) {
      SetEntry(w, a.client, i);
    } else {
      EntryStays(w, a, i);
      EntryLastSet(acts[..n], i);
    }
  }

  lemma SetEntry(w: Worker, c: Client, i: nat)
    requires WorkerInv(w) && i < |Establish(w, c).cache| && Establish(w, c).cache[i].id == c.id
    ensures Establish(w, c).cache[i] == c
  {
  }

  lemma {:induction false} EntriesInOrder(acts: seq<Act>, i: nat, j: nat)
    requires i < j < |Live(acts).cache|
    ensures SetBefore(acts, Live(acts).cache[i].id, Live(acts).cache[j].id)
  {
    var before, a := acts[..|acts| - 1], acts[|acts| - 1];
    assert acts == before + [a];
    var w, t := Live(before), Live(acts);
    LiveInv(before);
    PlacesStay(w, a);
    hide Live, Perform, SetBefore, WorkerInv;
    if j < |w.cache| {
      EntriesInOrder(before, i, j);
      SetBeforeSnoc(before, a, t.cache[i].id, t.cache[j].id);
    } else {
      CacheIds(before, t.cache[i].id);
      CacheIds(before, t.cache[j].id);
      FirstTime(before, a, t.cache[i].id, t.cache[j].id);
    }
  }

  /** An act keeps the ids at their places; a place it adds is the last one and its id is new. */
  lemma PlacesStay(w: Worker, a: Act)
    requires WorkerInv(w)
    ensures var t := Perform(w, a);
            && |w.cache| <= |t.cache| <= |w.cache| + 1
            && (forall i :: 0 <= i < |w.cache| ==> t.cache[i].id == w.cache[i].id)
            && (|t.cache| > |w.cache| <==> a.Set? && !InCache(w.cache, a.client.id))
            && (|t.cache| > |w.cache| ==> t.cache[|w.cache|].id == a.client.id)
  {
  }

  // ---------------------------------------------------------------------------------------
  // Killed exactly when passed
  // ---------------------------------------------------------------------------------------

  /**
   What holds since `before`, where entry `i` was about to be set: kills and drains only went
   forward, and the entry was killed exactly if a drain has passed it.
   */
  ghost predicate Since(before: Worker, now: Worker, i: nat) {
    && |before.kills| <= |now.kills| && |before.drains| <= |now.drains| && i < |now.cache|
    && (forall d :: 0 <= d < |before.drains| ==> before.drains[d].next <= now.drains[d].next)
    && (now.cache[i] in now.kills[|before.kills|..] <==> Passes(before, now, i))
  }

  lemma SamePasses(before: Worker, w: Worker, t: Worker, i: nat)
    requires |t.drains| == |w.drains|
    requires forall d :: 0 <= d < |w.drains| ==> (t.drains[d].next > i <==> w.drains[d].next > i)
    ensures Passes(before, t, i) <==> Passes(before, w, i)
  {
    assert forall d :: 0 <= d < |w.drains| ==> PassesAt(before, t, i, d) == PassesAt(before, w, i, d);
  }

  lemma TurnSince(before: Worker, w: Worker, k: nat, i: nat)
    requires WorkerInv(w) && Since(before, w, i) && k < |w.drains|
    ensures Since(before, Turn(w, k), i)
  {
    var t, d := Turn(w, k), w.drains[k];
    var base := |before.kills|;
    if d.finished || d.next >= |w.cache| {
      SamePasses(before, w, t, i);
    } else {
      assert t.kills[base..] == w.kills[base..] + [w.cache[d.next]];
      if d.next == i {
        assert t.kills[base..][|w.kills| - base] == t.cache[i];
        assert PassesAt(before, t, i, k);
      } else {
        SamePasses(before, w, t, i);
      }
    }
  }

  lemma SetSince(before: Worker, w: Worker, c: Client, i: nat)
    requires WorkerInv(w) && Since(before, w, i) && w.cache[i].id != c.id
    ensures Since(before, Establish(w, c), i)
  {
    SamePasses(before, w, Establish(w, c), i);
  }

  lemma OpenSince(before: Worker, w: Worker, i: nat)
    requires Since(before, w, i)
    ensures Since(before, Opened(w), i)
  {
    var t := Opened(w);
    if Passes(before, w, i) {
      var d :| 0 <= d < |w.drains| && PassesAt(before, w, i, d);
      assert PassesAt(before, t, i, d);
    }
    if Passes(before, t, i) {
      var d :| 0 <= d < |t.drains| && PassesAt(before, t, i, d);
      assert PassesAt(before, w, i, d);
    }
  }

  lemma PerformSince(before: Worker, w: Worker, a: Act, i: nat)
    requires WorkerInv(w) && Since(before, w, i) && !(a.Set? && a.client.id == w.cache[i].id)
    ensures Since(before, Perform(w, a), i)
  {
    hide Since;
    match a
    case Set(c) => SetSince(before, w, c, i);
    case Start =>
      OpenSince(before, w, i);
      TurnSince(before, Opened(w), |w.drains|, i);
    case Advance(k) => if k < |w.drains| { TurnSince(before, w, k, i); }
  }

  /** Just after an entry was set nothing has happened to it yet. */
  lemma JustSet(w: Worker, c: Client, i: nat)
    requires i < |Establish(w, c).cache|
    ensures Since(w, Establish(w, c), i)
  {
    var t := Establish(w, c);
    assert t.kills[|w.kills|..] == [];
    assert forall d :: 0 <= d < |t.drains| ==> !PassesAt(w, t, i, d);
  }

  /** An act other than setting it leaves an entry where it is and as it is. */
  lemma EntryStays(w: Worker, a: Act, i: nat)
    requires WorkerInv(w) && i < |Perform(w, a).cache|
    requires !(a.Set? && a.client.id == Perform(w, a).cache[i].id)
    ensures i < |w.cache| && Perform(w, a).cache[i] == w.cache[i]
  {
  }

  lemma {:induction false} SinceLastSet(acts: seq<Act>, i: nat)
    requires i < |Live(acts).cache|
    ensures Since(BeforeSet(acts, i), Live(acts), i)
  {
    if acts == [] {
      return;
    }
    hide Since, Perform, WorkerInv;
    var n := |acts| - 1;
    var w, a := Live(acts[..n]), acts[n];
    LiveInv(acts[..n]);
    var id := Live(acts).cache[i].id;
    if a.Set? && a.client.id == id {
      assert Perform(w, a) == Establish(w, a.client) by { PerformSet(w, a.client); }
      JustSet(w, a.client, i);
    } else {
      EntryStays(w, a, i);
      SinceLastSet(acts[..n], i);
      assert acts[..n][..LastSet(acts, id)] == acts[..LastSet(acts, id)];
      PerformSince(BeforeSet(acts, i), w, a, i);
    }
  }

  lemma PerformSet(w: Worker, c: Client)
    ensures Perform(w, Set(c)) == Establish(w, c)
  {
  }

  /**
   At every moment a client in the cache has been killed since it was last set if and only if a
   drain that had not passed its position when it was set has passed it since.
   */
  lemma KilledIffPassed(acts: seq<Act>, i: nat)
    requires i < |Live(acts).cache|
    ensures KilledSinceSet(acts, i) <==> Passes(BeforeSet(acts, i), Live(acts), i)
  {
    hide Passes, BeforeSet, Live;
    SinceLastSet(acts, i);
  }

  /** When its id was last set, entry `i` took a place that the drains which reached it by now had already passed. */
  ghost predicate TakenOver(acts: seq<Act>, i: nat)
    requires i < |Live(acts).cache|
  {
    var before, now := BeforeSet(acts, i), Live(acts);
    forall d :: 0 <= d < |now.drains| && now.drains[d].next > i ==> d < |before.drains| && before.drains[d].next > i
  }

  lemma PassedIffNotTakenOver(before: Worker, now: Worker, i: nat)
    ensures Passes(before, now, i) <==>
            !(forall d :: 0 <= d < |now.drains| && now.drains[d].next > i ==>
                d < |before.drains| && before.drains[d].next > i)
  {
    if d :| 0 <= d < |now.drains| && now.drains[d].next > i && !(d < |before.drains| && before.drains[d].next > i) {
      assert PassesAt(before, now, i, d);
    }
  }

  /** A drain that reports has visited the whole cache. */
  lemma ReportVisitsAll(acts: seq<Act>, k: nat)
    requires k < |Live(acts).drains| && TurnReports(Live(acts), k)
    ensures Live(acts).drains[k].next == |Live(acts).cache|
  {
    LiveInv(acts);
  }

  /**
   What a report says about entry `i`: it was killed since it was last set if and only if it did
   not take over a passed place; if it did, the reporting drain itself had passed that place; and
   if its id was new when it was set, it was killed.
   */
  ghost predicate EntryCovered(acts: seq<Act>, a: Act, i: nat)
    requires i < |Live(acts).cache|
  {
    var before := BeforeSet(acts, i);
    && (KilledSinceSet(acts, i) <==> !TakenOver(acts, i))
    && (TakenOver(acts, i) ==> a.Advance? && a.k < |before.drains| && before.drains[a.k].next > i)
    && (i >= |before.cache| ==> KilledSinceSet(acts, i))
  }

  ghost predicate Covered(acts: seq<Act>, a: Act) {
    forall i :: 0 <= i < |Live(acts).cache| ==> EntryCovered(acts, a, i)
  }

  /** Every report is sent with the cache of that moment covered, whatever was added while the drains were running. */
  lemma ReportCoversCache(acts: seq<Act>, a: Act)
    requires ActReports(Live(acts), a)
    ensures Covered(acts, a)
  {
    forall i | 0 <= i < |Live(acts).cache| ensures EntryCovered(acts, a, i) {
      ReportCoversEntry(acts, a, i);
    }
  }

  lemma ReportCoversEntry(acts: seq<Act>, a: Act, i: nat)
    requires ActReports(Live(acts), a) && i < |Live(acts).cache|
    ensures EntryCovered(acts, a, i)
  {
    hide Live, KilledSinceSet, Passes, LastSet;
    var before := BeforeSet(acts, i);
    KilledIffPassed(acts, i);
    PassedIffNotTakenOver(before, Live(acts), i);
    assert a.Advance?;
    ReportVisitsAll(acts, a.k);
    LiveInv(acts[..LastSet(acts, Live(acts).cache[i].id)]);
  }

  /** A client that takes over any id while a drain is about to report is not killed before the report. */
  lemma ReusedIdEscapes(acts: seq<Act>, k: nat, i: nat, uuid: string)
    requires k < |Live(acts).drains| && TurnReports(Live(acts), k) && i < |Live(acts).cache|
    ensures var id := Live(acts).cache[i].id;
            var after := acts + [Set(Client(id, uuid))];
            && ActReports(Live(after), Advance(k))
            && i < |Live(after).cache| && Live(after).cache[i] == Client(id, uuid)
            && !KilledSinceSet(after, i)
  {
    var w, id := Live(acts), Live(acts).cache[i].id;
    var after := acts + [Set(Client(id, uuid))];
    LiveInv(acts);
    assert after[..|acts|] == acts;
    assert Find(w.cache, id) == i;
    assert Live(after) == Establish(w, Client(id, uuid));
    assert LastSet(after, id) == |acts|;
    assert Live(after).kills[|w.kills|..] == [];
  }

  // ---------------------------------------------------------------------------------------
  // The cluster
  // ---------------------------------------------------------------------------------------

  /** Each worker process is given by what it has done since it was forked. */
  datatype Cluster = Cluster(workers: map<nat, seq<Act>>, mail: seq<nat>, states: set<nat>, exited: bool)

  datatype Step = Acted(id: nat, act: Act) | Restarted(id: nat) | Delivered(i: nat)

  predicate Enabled(c: Cluster, s: Step) {
    && !c.exited
    && match s
       case Acted(id, _) => id in c.workers
       case Restarted(id) => id in c.workers
       case Delivered(i) => i < |c.mail|
  }

  /** The step makes worker `id` send its report. */
  predicate Reports(c: Cluster, s: Step, id: nat) {
    Enabled(c, s) && s.Acted? && s.id == id && ActReports(Live(c.workers[id]), s.act)
  }

  function Next(c: Cluster, s: Step, count: nat): (r: Cluster) {
    if !Enabled(c, s) then c else
    match s
    case Acted(id, act) =>
      c.(workers := c.workers[id := c.workers[id] + [act]],
         mail := if Reports(c, s, id) then c.mail + [id] else c.mail)
    case Restarted(id) => c.(workers := c.workers[id := []])
    case Delivered(i) =>
      var states := c.states + {c.mail[i]};
      c.(mail := c.mail[..i] + c.mail[i + 1..], states := states, exited := |states| >= count)
  }

  /** Worker ids are 1..count. */
  function Started(count: nat): (c: Cluster) {
    Cluster(map id | id in Ids(count) :: [], [], {}, false)
  }

  function Run(count: nat, steps: seq<Step>): (c: Cluster) {
    if steps == [] then Started(count) else Next(Run(count, steps[..|steps| - 1]), steps[|steps| - 1], count)
  }

  function Ids(count: nat): (s: set<nat>)
    ensures |s| == count && forall i :: i in s <==> 1 <= i <= count
  {
    if count == 0 then {} else Ids(count - 1) + {count}
  }

  /** Enough distinct worker ids are all of them. */
  lemma EnoughIsAll(states: set<nat>, count: nat)
    requires states <= Ids(count)
    ensures |states| >= count <==> states == Ids(count)
  {
    var missing := Ids(count) - states;
    assert Ids(count) == states + missing;
    assert |Ids(count)| == |states| + |missing|;
  }

  /** At step `k` of the run worker `id` sent a report, with its cache covered. */
  ghost predicate ReportedAt(count: nat, steps: seq<Step>, k: nat, id: nat) {
    && k < |steps| && Reports(Run(count, steps[..k]), steps[k], id)
    && Covered(Run(count, steps[..k]).workers[id], steps[k].act)
  }

  ghost predicate HasReported(count: nat, steps: seq<Step>, id: nat) {
    exists k: nat :: ReportedAt(count, steps, k, id)
  }

  lemma HasReportedExtends(count: nat, steps: seq<Step>, id: nat)
    requires steps != [] && HasReported(count, steps[..|steps| - 1], id)
    ensures HasReported(count, steps, id)
  {
    hide Run, Reports, Covered;
    var before := steps[..|steps| - 1];
    var k: nat :| ReportedAt(count, before, k, id);
    assert before[..k] == steps[..k];
    assert ReportedAt(count, steps, k, id);
  }

  ghost predicate ClusterInv(c: Cluster, count: nat) {
    && c.workers.Keys == Ids(count)
    && c.states <= Ids(count)
    && (c.exited <==> count >= 1 && c.states == Ids(count))
    && (forall i :: 0 <= i < |c.mail| ==> c.mail[i] in Ids(count))
  }

  lemma NextKeepsInv(c: Cluster, s: Step, count: nat)
    requires ClusterInv(c, count)
    ensures ClusterInv(Next(c, s, count), count)
  {
    hide Ids, ActReports, Live;
    var t := Next(c, s, count);
    if Enabled(c, s) {
      if s.Delivered? {
        assert c.mail[s.i] in Ids(count);
        assert count >= 1;
        EnoughIsAll(t.states, count);
        forall j | 0 <= j < |t.mail| ensures t.mail[j] in Ids(count) {
          assert t.mail[j] == c.mail[if j < s.i then j else j + 1];
        }
      } else {
        assert t.workers.Keys == c.workers.Keys;
      }
    }
  }

  lemma {:induction false} Reachable(count: nat, steps: seq<Step>)
    ensures ClusterInv(Run(count, steps), count)
  {
    if steps == [] {
      assert Started(count).workers.Keys == Ids(count);
    } else {
      Reachable(count, steps[..|steps| - 1]);
      NextKeepsInv(Run(count, steps[..|steps| - 1]), steps[|steps| - 1], count);
    }
  }

  lemma {:induction false} MailIsReported(count: nat, steps: seq<Step>, id: nat)
    ensures var c := Run(count, steps); id in c.mail || id in c.states <==> HasReported(count, steps, id)
  {
    if steps == [] {
      return;
    }
    hide ActReports, Live, HasReported, Covered, Reports;
    var n := |steps| - 1;
    var c := Run(count, steps[..n]);
    MailIsReported(count, steps[..n], id);
    MailAfter(c, steps[n], count, id);
    if HasReported(count, steps[..n], id) {
      HasReportedExtends(count, steps, id);
    } else if Reports(c, steps[n], id) {
      ReportedNow(count, steps, id);
    } else if HasReported(count, steps, id) {
      ReportedBefore(count, steps, id);
    }
  }

  /** A report is posted, and a posted one is either waiting or was delivered. */
  lemma MailAfter(c: Cluster, s: Step, count: nat, id: nat)
    ensures var t := Next(c, s, count);
            id in t.mail || id in t.states <==> id in c.mail || id in c.states || Reports(c, s, id)
  {
    hide ActReports, Live;
    if Enabled(c, s) && s.Delivered? {
      assert c.mail == c.mail[..s.i] + [c.mail[s.i]] + c.mail[s.i + 1..];
    }
  }

  lemma ReportedBefore(count: nat, steps: seq<Step>, id: nat)
    requires steps != [] && HasReported(count, steps, id)
    requires !Reports(Run(count, steps[..|steps| - 1]), steps[|steps| - 1], id)
    ensures HasReported(count, steps[..|steps| - 1], id)
  {
    hide Run, Reports, Covered;
    var before := steps[..|steps| - 1];
    var k: nat :| ReportedAt(count, steps, k, id);
    assert before[..k] == steps[..k];
    assert ReportedAt(count, before, k, id);
  }

  lemma ReportedNow(count: nat, steps: seq<Step>, id: nat)
    requires steps != [] && Reports(Run(count, steps[..|steps| - 1]), steps[|steps| - 1], id)
    ensures HasReported(count, steps, id)
  {
    hide Run, ActReports, Covered, Live;
    var n := |steps| - 1;
    ReportCoversCache(Run(count, steps[..n]).workers[id], steps[n].act);
    assert ReportedAt(count, steps, n, id);
  }

  /** A worker that is forked again has no clients and no drains; what it reported before still counts. */
  lemma RestartForgets(count: nat, steps: seq<Step>, id: nat)
    requires !Run(count, steps).exited && 1 <= id <= count
    ensures var c, t := Run(count, steps), Run(count, steps + [Restarted(id)]);
            && t.mail == c.mail && t.states == c.states && !t.exited && t.workers.Keys == c.workers.Keys
            && (forall other :: other in t.workers && other != id ==> t.workers[other] == c.workers[other])
            && id in t.workers && Live(t.workers[id]) == IDLE
  {
    Reachable(count, steps);
    assert (steps + [Restarted(id)])[..|steps|] == steps;
    assert Live([]) == IDLE;
    hide Reports;
  }

  /** Once every id has reported and no report is waiting, the primary has left. */
  lemma PrimaryLeaves(count: nat, steps: seq<Step>)
    requires count >= 1 && Run(count, steps).mail == []
    requires forall id: nat :: 1 <= id <= count ==> HasReported(count, steps, id)
    ensures Run(count, steps).exited
  {
    hide HasReported, Next;
    forall id: nat | 1 <= id <= count ensures id in Run(count, steps).states {
      MailIsReported(count, steps, id);
    }
    PrimaryLeavesAfterAll(count, steps);
  }

  /**
   Shutdown safety: the primary has left exactly when every id in 1..count is among the states it
   was told, so duplicates never count twice; and each of those ids sent a report at a moment when
   its cache was covered by kills, whatever was added while it was draining.
   */
  lemma PrimaryLeavesAfterAll(count: nat, steps: seq<Step>)
    ensures var c := Run(count, steps);
            && (c.exited <==> count >= 1 && forall id :: 1 <= id <= count ==> id in c.states)
            && (c.exited ==> forall id: nat :: 1 <= id <= count ==> HasReported(count, steps, id))
  {
    hide HasReported, Next;
    var c := Run(count, steps);
    Reachable(count, steps);
    forall id: nat | 1 <= id <= count && c.exited ensures HasReported(count, steps, id) {
      MailIsReported(count, steps, id);
    }
    if count >= 1 && forall id :: 1 <= id <= count ==> id in c.states {
      assert c.states == Ids(count);
    }
  }

  // ---------------------------------------------------------------------------------------
  // The pace of a drain
  // ---------------------------------------------------------------------------------------

  /** Math.min(MAXIMUM_DRAIN_DELAY, DEFAULT_SIGTERM_TIMEOUT / clientCount) */
  function Delay(maximum: real, timeout: real, count: nat): (d: real)
    requires count >= 1
  {
    if maximum <= timeout / count as real then maximum else timeout / count as real
  }

  lemma ScaleOrder(x: real, a: real, b: real)
    requires x > 0.0
    ensures a <= b <==> a * x <= b * x
  {
    if a < b {
      assert (b - a) * x > 0.0;
    } else if a > b {
      assert (a - b) * x > 0.0;
    }
  }

  lemma ScaleUp(n: real, x: real, y: real)
    requires n >= 0.0 && x <= y
    ensures n * x <= n * y
  {
    assert n * (y - x) >= 0.0;
  }

  /** The pauses of `n` turns fit the timeout exactly when no client was added, or even the longest pause fits. */
  lemma PauseFitsIff(maximum: real, timeout: real, count: nat, n: nat)
    requires count >= 1 && timeout > 0.0
    ensures n as real * Delay(maximum, timeout, count) <= timeout <==> n <= count || n as real * maximum <= timeout
  {
    var share, c, m := timeout / count as real, count as real, n as real;
    assert c * share == timeout;
    assert share > 0.0;
    ScaleOrder(share, m, c);
    if maximum <= share {
      ScaleUp(m, maximum, share);
    } else {
      ScaleUp(m, share, maximum);
    }
  }

  /** The time the pauses of a drain take. */
  function Paused(d: Drain, maximum: real, timeout: real): (t: real)
    requires d.count >= 1
  {
    d.next as real * Delay(maximum, timeout, d.count)
  }

  lemma PausedFits(d: Drain, maximum: real, timeout: real)
    requires d.count >= 1 && timeout > 0.0
    ensures Paused(d, maximum, timeout) <= timeout <==> d.next <= d.count || d.next as real * maximum <= timeout
  {
    hide Delay;
    PauseFitsIff(maximum, timeout, d.count, d.next);
  }

  /** The `k`-th drain was begun by act `j`. */
  predicate BegunAt(acts: seq<Act>, k: nat, j: nat) {
    j < |acts| && acts[j].Start? && |Live(acts[..j]).drains| == k
  }

  lemma BeginsBefore(acts: seq<Act>, k: nat, j: nat)
    requires BegunAt(acts, k, j)
    ensures j < |acts|
  {
  }

  lemma DrainKept(w: Worker, a: Act, k: nat)
    requires k < |w.drains|
    ensures var t := Perform(w, a);
            k < |t.drains| && t.drains[k].count == w.drains[k].count && (w.drains[k].finished ==> t.drains[k].finished)
  {
  }

  /** A drain counts the clients in the cache at the moment it is begun; if there are none it is over at once. */
  lemma {:induction false} DrainCounts(acts: seq<Act>, k: nat, j: nat)
    requires BegunAt(acts, k, j)
    ensures var w := Live(acts);
            && k < |w.drains| && w.drains[k].count == |Live(acts[..j]).cache|
            && (w.drains[k].count == 0 ==> w.drains[k].finished)
  {
    hide Perform;
    var n := |acts| - 1;
    if j < n {
      assert acts[..n][..j] == acts[..j];
      DrainCounts(acts[..n], k, j);
      DrainKept(Live(acts[..n]), acts[n], k);
    } else {
      BeginCounts(Live(acts[..n]));
    }
  }

  /** A drain counts the clients, kills the first at once, and is over if there is none. */
  lemma BeginCounts(w: Worker)
    ensures var t, k := Perform(w, Start), |w.drains|;
            && k < |t.drains| && t.drains[k].count == |w.cache| && (w.cache == [] <==> t.drains[k].finished)
            && t.kills == w.kills + if w.cache == [] then [] else [w.cache[0]]
  {
  }

  /** No act from `j` on sets an id that was not set before. */
  ghost predicate NoNewcomers(acts: seq<Act>, j: nat)
    requires j <= |acts|
  {
    forall q :: j <= q < |acts| && acts[q].Set? ==> WasSet(acts[..j], acts[q].client.id)
  }

  lemma NoNewcomersSnoc(acts: seq<Act>, j: nat)
    requires j < |acts|
    ensures var before, a := acts[..|acts| - 1], acts[|acts| - 1];
            NoNewcomers(acts, j) <==> NoNewcomers(before, j) && (a.Set? ==> WasSet(acts[..j], a.client.id))
  {
    hide WasSet;
    var before := acts[..|acts| - 1];
    assert before[..j] == acts[..j];
    if NoNewcomers(acts, j) {
      assert forall q :: j <= q < |before| ==> before[q] == acts[q];
    }
    if NoNewcomers(before, j) {
      assert forall q :: j <= q < |before| ==> acts[q] == before[q];
    }
  }

  /** Without newcomers the ids set are those set before `j`. */
  lemma SameIds(acts: seq<Act>, j: nat, id: nat)
    requires j <= |acts| && NoNewcomers(acts, j)
    ensures WasSet(acts, id) <==> WasSet(acts[..j], id)
  {
    if k :| 0 <= k < |acts| && Sets(acts[k], id) {
      if k < j { assert Sets(acts[..j][k], id); }
    }
    if k :| 0 <= k < j && Sets(acts[..j][k], id) {
      assert Sets(acts[k], id);
    }
  }

  /** The cache never shrinks, and it keeps its size exactly while there are no newcomers. */
  lemma {:induction false} CacheGrows(acts: seq<Act>, j: nat)
    requires j <= |acts|
    ensures var n, m := |Live(acts[..j]).cache|, |Live(acts).cache|; n <= m && (n == m <==> NoNewcomers(acts, j))
  {
    if j == |acts| {
      assert acts[..j] == acts;
      return;
    }
    var before, a := acts[..|acts| - 1], acts[|acts| - 1];
    assert before[..j] == acts[..j] && acts == before + [a];
    CacheGrows(before, j);
    LiveInv(before);
    PlacesStay(Live(before), a);
    LiveSnoc(before, a);
    NoNewcomersSnoc(acts, j);
    hide Live, Perform, NoNewcomers, WasSet, WorkerInv;
    if a.Set? && NoNewcomers(before, j) {
      CacheIds(before, a.client.id);
      SameIds(before, j, a.client.id);
    }
  }

  /**
   The pauses of a drain that reports took at most the timeout if and only if no client with a new
   id was added since the drain was begun, or even the longest pause for each client fits.
   */
  lemma DrainInTime(acts: seq<Act>, k: nat, j: nat, maximum: real, timeout: real)
    requires timeout > 0.0 && BegunAt(acts, k, j)
    requires k < |Live(acts).drains| && TurnReports(Live(acts), k)
    ensures Live(acts).drains[k].count >= 1
    ensures Paused(Live(acts).drains[k], maximum, timeout) <= timeout <==>
              NoNewcomers(acts, j) || |Live(acts).cache| as real * maximum <= timeout
  {
    hide Live, Paused, NoNewcomers, BegunAt;
    DrainCounts(acts, k, j);
    ReportVisitsAll(acts, k);
    BeginsBefore(acts, k, j);
    CacheGrows(acts, j);
    PausedFits(Live(acts).drains[k], maximum, timeout);
  }

  // ---------------------------------------------------------------------------------------
  // A drain comes to its report
  // ---------------------------------------------------------------------------------------

  /** `n` turns of the same drain. */
  function Turns(k: nat, n: nat): (acts: seq<Act>) {
    if n == 0 then [] else Turns(k, n - 1) + [Advance(k)]
  }

  /** A drain left alone kills the clients it has not visited, in the order of the cache, and then reports. */
  lemma {:induction false} DrainReports(acts: seq<Act>, k: nat, n: nat)
    requires k < |Live(acts).drains| && !Live(acts).drains[k].finished
    requires Live(acts).drains[k].next + n <= |Live(acts).cache|
    ensures var w, t, next := Live(acts), Live(acts + Turns(k, n)), Live(acts).drains[k].next;
            && t.cache == w.cache && t.kills == w.kills + w.cache[next..next + n]
            && k < |t.drains| && t.drains[k] == w.drains[k].(next := next + n)
            && (TurnReports(t, k) <==> next + n == |w.cache|)
  {
    hide Live, Turn;
    if n == 0 {
      assert acts + Turns(k, n) == acts;
      assert Live(acts).kills + [] == Live(acts).kills;
      return;
    }
    assert acts + Turns(k, n) == acts + Turns(k, n - 1) + [Advance(k)];
    hide Turns;
    LiveSnoc(acts + Turns(k, n - 1), Advance(k));
    DrainReports(acts, k, n - 1);
    TurnVisits(Live(acts + Turns(k, n - 1)), k);
    SliceSnoc(Live(acts).cache, Live(acts).drains[k].next, n - 1);
  }

  lemma TurnVisits(w: Worker, k: nat)
    requires k < |w.drains| && !w.drains[k].finished && w.drains[k].next < |w.cache|
    ensures var t, d := Turn(w, k), w.drains[k];
            && t.cache == w.cache && t.kills == w.kills + [w.cache[d.next]]
            && |t.drains| == |w.drains| && t.drains[k] == d.(next := d.next + 1)
  {
  }

  lemma SliceSnoc<T>(s: seq<T>, i: nat, n: nat)
    requires i + n < |s|
    ensures s[i..i + n + 1] == s[i..i + n] + [s[i + n]]
  {
  }
}

/** The drain of one worker and the message handler of the primary as objects, proved against module Shutdown. */
module ShutdownCode {
  import opened Shutdown

  class DrainingWorker {
    var clientCache: seq<Client>
    var drains: seq<Drain>
    /** The clients whose names were passed to `killClient`, in order. */
    var kills: seq<Client>
    /** The number of reports sent. */
    var reports: nat
    /** What this process has done. */
    ghost var acts: seq<Act>

    ghost function Model(): (w: Worker)
      reads this
    {
      Worker(clientCache, drains, kills)
    }

    ghost predicate Valid()
      reads this
    {
      Model() == Live(acts)
    }

    constructor ()
      ensures Valid() && acts == [] && reports == 0
    {
      clientCache, drains, kills, reports, acts := [], [], [], 0, [];
    }

    method ClientEstablished(id: nat, uuid: string)
      requires Valid()
      modifies this
      ensures Valid() && acts == old(acts) + [Set(Client(id, uuid))] && reports == old(reports)
    {
      var i := 0;
      while i < |clientCache| && clientCache[i].id != id
        invariant 0 <= i <= |clientCache| && forall k :: 0 <= k < i ==> clientCache[k].id != id
      {
        i := i + 1;
      }
      assert i == Find(clientCache, id);
      if i < |clientCache| {
        clientCache := clientCache[i := Client(id, uuid)];
      } else {
        clientCache := clientCache + [Client(id, uuid)];
      }
      LiveSnoc(acts, Set(Client(id, uuid)));
      acts := acts + [Set(Client(id, uuid))];
    }

    /** The body of the loop over `clientCache.values()`, and the report after it. */
    method Advance(k: nat) returns (reported: bool)
      requires k < |drains|
      modifies this`drains, this`kills, this`reports
      ensures Model() == Turn(old(Model()), k)
      ensures reported == TurnReports(old(Model()), k) && reports == old(reports) + if reported then 1 else 0
    {
      reported := false;
      var d := drains[k];
      if d.finished {
        return;
      }
      if d.next < |clientCache| {
        kills := kills + [clientCache[d.next]];
        drains := drains[k := d.(next := d.next + 1)];
      } else {
        reported := true;
        reports := reports + 1;
        drains := drains[k := d.(finished := true)];
      }
    }

    /** A drain goes on after its pause; when it reports, the cache is covered. */
    method DrainTurn(k: nat) returns (reported: bool)
      requires Valid() && k < |drains|
      modifies this
      ensures Valid() && acts == old(acts) + [Shutdown.Advance(k)]
      ensures reports == old(reports) + if reported then 1 else 0
      ensures reported == TurnReports(old(Model()), k)
      ensures reported ==> Covered(old(acts), Shutdown.Advance(k))
    {
      LiveSnoc(acts, Shutdown.Advance(k));
      reported := Advance(k);
      if reported {
        ReportCoversCache(acts, Shutdown.Advance(k));
      }
      acts := acts + [Shutdown.Advance(k)];
    }

    /** `drainConnections` from the moment the load balancer stopped sending clients. */
    method DrainConnections() returns (reported: bool)
      requires Valid()
      modifies this
      ensures Valid() && acts == old(acts) + [Start]
      ensures reports == old(reports) + if reported then 1 else 0
      ensures reported <==> old(clientCache) == []
      ensures |drains| == |old(drains)| + 1 && drains[|old(drains)|].count == |old(clientCache)|
    {
      LiveSnoc(acts, Start);
      var k := |drains|;
      drains := drains + [Drain(0, |clientCache|, false)];
      reported := Advance(k);
      acts := acts + [Start];
    }
  }

  class Primary {
    var workerStates: map<nat, bool>
    var exited: bool
    const instanceCount: nat

    constructor (instanceCount: nat)
      ensures workerStates == map[] && !exited && this.instanceCount == instanceCount
    {
      this.instanceCount := instanceCount;
      workerStates, exited := map[], false;
    }

    /** The `drain` message handler: the states are those of `Delivered`. */
    method OnDrain(instanceId: nat, finished: bool, ghost c: Cluster, ghost i: nat)
      requires !exited && !c.exited && c.states == workerStates.Keys && i < |c.mail| && c.mail[i] == instanceId
      modifies this
      ensures workerStates == old(workerStates)[instanceId := finished]
      ensures var t := Next(c, Delivered(i), instanceCount); workerStates.Keys == t.states && exited == t.exited
    {
      workerStates := workerStates[instanceId := finished];
      assert workerStates.Keys == c.states + {instanceId};
      var drainCount := |workerStates|;
      assert drainCount == |workerStates.Keys|;
      if drainCount >= instanceCount {
        exited := true;
      }
    }
  }
}
