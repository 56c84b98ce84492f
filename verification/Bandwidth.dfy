/**
 Byte accounting in src/vpn-worker.ts: a cache entry per client, two counters, and the bitrate
 messages sent to the primary process. Times are whole seconds, rates are real numbers.
 */
module Bandwidth {

  datatype Entry = Entry(uuid: string, ts: int, received: int, sent: int)

  datatype Event =
    | Established(id: int, uuid: string, now: int)
    | Bytecount(id: int, received: int, sent: int, now: int)

  datatype Bitrate = Bitrate(uuid: string, rx: real, tx: real)

  datatype State = State(cache: map<int, Entry>, rxBytes: int, txBytes: int, messages: seq<Bitrate>)

  const FRESH: State := State(map[], 0, 0, [])

  function Rate(bytes: int, seconds: int): (r: real)
    requires seconds > 0
  {
    (bytes * 8) as real / seconds as real
  }

  /** `ipc` says whether the process has a parent to send to. */
  function Handle(s: State, e: Event, ipc: bool): (r: State) {
    match e
    case Established(id, uuid, now) => s.(cache := s.cache[id := Entry(uuid, now, 0, 0)])
    case Bytecount(id, received, sent, now) =>
      if id !in s.cache then s else
        var entry := s.cache[id];
        var rxDelta, txDelta, timeDelta := received - entry.received, sent - entry.sent, now - entry.ts;
        State(s.cache[id := Entry(entry.uuid, now, received, sent)],
              s.rxBytes + rxDelta, s.txBytes + txDelta,
              if timeDelta > 0 && ipc
              then s.messages + [Bitrate(entry.uuid, Rate(rxDelta, timeDelta), Rate(txDelta, timeDelta))]
              else s.messages)
  }

  function Run(events: seq<Event>, ipc: bool): (s: State) {
    if events == [] then FRESH else Handle(Run(events[..|events| - 1], ipc), events[|events| - 1], ipc)
  }

  /** Received or sent: every statement below holds for both. */
  datatype Direction = Rx | Tx

  function Total(s: State, d: Direction): (n: int) {
    if d.Rx? then s.rxBytes else s.txBytes
  }

  function Reported(e: Event, d: Direction): (n: int)
    requires e.Bytecount?
  {
    if d.Rx? then e.received else e.sent
  }

  function Known(entry: Entry, d: Direction): (n: int) {
    if d.Rx? then entry.received else entry.sent
  }

  // ---------------------------------------------------------------------------------------
  // Conservation of bytes
  // ---------------------------------------------------------------------------------------

  /** The last count for `id` before its next session begins, or `none` if there is no report. */
  function LastCount(events: seq<Event>, id: int, d: Direction, none: int): (n: int)
    decreases |events|
  {
    if events == [] then none
    else if events[0].id != id then LastCount(events[1..], id, d, none)
    else if events[0].Established? then none
    else LastCount(events[1..], id, d, Reported(events[0], d))
  }

  /** The sum over all sessions of the last count reported in the session. */
  function SessionTotal(events: seq<Event>, d: Direction): (n: int) {
    if events == [] then 0
    else (if events[0].Established? then LastCount(events[1..], events[0].id, d, 0) else 0)
         + SessionTotal(events[1..], d)
  }

  predicate Opened(events: seq<Event>, id: int) {
    exists k :: 0 <= k < |events| && events[k].Established? && events[k].id == id
  }

  lemma OpenedCons(events: seq<Event>, id: int)
    requires events != []
    ensures Opened(events, id) <==> (events[0].Established? && events[0].id == id) || Opened(events[1..], id)
  {
    if Opened(events, id) {
      var k :| 0 <= k < |events| && events[k].Established? && events[k].id == id;
      if k > 0 { assert events[1..][k - 1] == events[k]; }
    }
    if Opened(events[1..], id) {
      var k :| 0 <= k < |events[1..]| && events[1..][k].Established? && events[1..][k].id == id;
      assert events[k + 1] == events[1..][k];
    }
  }

  /** The count of the session of `id` that is still open. */
  function OpenCount(events: seq<Event>, id: int, d: Direction): (n: int) {
    if events == [] then 0
    else if events[0].Established? && events[0].id == id && !Opened(events[1..], id)
    then LastCount(events[1..], id, d, 0)
    else OpenCount(events[1..], id, d)
  }

  lemma {:induction false} LastCountSnoc(events: seq<Event>, e: Event, id: int, d: Direction, none: int)
    ensures LastCount(events + [e], id, d, none)
            == if e.Bytecount? && e.id == id && !Opened(events, id) then Reported(e, d)
               else LastCount(events, id, d, none)
    decreases |events|
  {
    if events == [] {
      assert ([e])[1..] == [];
    } else {
      assert (events + [e])[1..] == events[1..] + [e];
      OpenedCons(events, id);
      var first := if events[0].Bytecount? && events[0].id == id then Reported(events[0], d) else none;
      LastCountSnoc(events[1..], e, id, d, first);
    }
  }

  lemma {:induction false} OpenCountSnoc(events: seq<Event>, e: Event, id: int, d: Direction)
    ensures OpenCount(events + [e], id, d)
            == if e.id != id then OpenCount(events, id, d)
               else if e.Established? then 0
               else if Opened(events, id) then Reported(e, d)
               else 0
    ensures !Opened(events, id) ==> OpenCount(events, id, d) == 0
    decreases |events|
  {
    var all := events + [e];
    if events == [] {
      assert all[1..] == [];
    } else {
      var rest := events[1..];
      assert all[1..] == rest + [e];
      OpenedCons(events, id);
      OpenedSnoc(rest, e, id);
      OpenCountSnoc(rest, e, id, d);
      LastCountSnoc(rest, e, id, d, 0);
    }
  }

  lemma OpenedSnoc(events: seq<Event>, e: Event, id: int)
    ensures Opened(events + [e], id) <==> Opened(events, id) || (e.Established? && e.id == id)
  {
    var all := events + [e];
    assert all[|events|] == e;
    if Opened(events, id) {
      var k :| 0 <= k < |events| && events[k].Established? && events[k].id == id;
      assert all[k] == events[k];
    }
  }

  /** A report moves the session total by what its own session gained; one for an unknown client by nothing. */
  lemma {:induction false} SessionTotalSnoc(events: seq<Event>, e: Event, d: Direction)
    ensures SessionTotal(events + [e], d)
            == SessionTotal(events, d)
               + if e.Bytecount? && Opened(events, e.id) then Reported(e, d) - OpenCount(events, e.id, d) else 0
    decreases |events|
  {
    if events == [] {
      assert [e][1..] == [];
    } else {
      var rest := events[1..];
      assert (events + [e])[1..] == rest + [e];
      SessionTotalSnoc(rest, e, d);
      LastCountSnoc(rest, e, events[0].id, d, 0);
      OpenedCons(events, e.id);
      OpenCountSnoc(rest, e, e.id, d);
    }
  }

  /** The cache holds the open sessions and their counts. */
  lemma {:induction false} CacheHoldsOpenSessions(events: seq<Event>, ipc: bool, id: int, d: Direction)
    ensures var s := Run(events, ipc);
            && (id in s.cache <==> Opened(events, id))
            && (id in s.cache ==> Known(s.cache[id], d) == OpenCount(events, id, d))
  {
    if events != [] {
      var n := |events| - 1;
      CacheHoldsOpenSessions(events[..n], ipc, id, d);
      OpenedSnoc(events[..n], events[n], id);
      OpenCountSnoc(events[..n], events[n], id, d);
      assert events == events[..n] + [events[n]];
    }
  }

  /** The time of the last event of `id`, and the name its last session was established with. */
  function LastSeen(events: seq<Event>, id: int): (t: int) {
    if events == [] then 0
    else if events[|events| - 1].id == id then events[|events| - 1].now
    else LastSeen(events[..|events| - 1], id)
  }

  function LastName(events: seq<Event>, id: int): (s: string) {
    if events == [] then ""
    else if events[|events| - 1].Established? && events[|events| - 1].id == id then events[|events| - 1].uuid
    else LastName(events[..|events| - 1], id)
  }

  /** An entry carries the name of its session and the time of the last event of its client. */
  lemma {:induction false} CacheRemembersSession(events: seq<Event>, ipc: bool, id: int)
    ensures var s := Run(events, ipc);
            id in s.cache ==> s.cache[id].ts == LastSeen(events, id) && s.cache[id].uuid == LastName(events, id)
  {
    if events != [] { CacheRemembersSession(events[..|events| - 1], ipc, id); }
  }

  /** Over every run the counter is the sum over sessions of the last count reported in each. */
  lemma {:induction false} BytesConserved(events: seq<Event>, ipc: bool, d: Direction)
    ensures Total(Run(events, ipc), d) == SessionTotal(events, d)
  {
    if events != [] {
      var n := |events| - 1;
      BytesConserved(events[..n], ipc, d);
      CacheHoldsOpenSessions(events[..n], ipc, events[n].id, d);
      SessionTotalSnoc(events[..n], events[n], d);
      assert events == events[..n] + [events[n]];
    }
  }

  // ---------------------------------------------------------------------------------------
  // Bits sent to the primary
  // ---------------------------------------------------------------------------------------

  function MessageRate(m: Bitrate, d: Direction): (r: real) {
    if d.Rx? then m.rx else m.tx
  }

  /** What a report adds to the last count of its session, from the events before it. */
  function Gain(before: seq<Event>, e: Event, d: Direction): (n: int) {
    if e.Bytecount? && Opened(before, e.id) then Reported(e, d) - OpenCount(before, e.id, d) else 0
  }

  /** The seconds since the last event of the same client. */
  function Elapsed(before: seq<Event>, e: Event): (seconds: int) {
    e.now - LastSeen(before, e.id)
  }

  /** A report for a known client, at least one clock second after the client's last event, with a parent to send to. */
  predicate Sends(before: seq<Event>, e: Event, ipc: bool) {
    e.Bytecount? && Opened(before, e.id) && Elapsed(before, e) > 0 && ipc
  }

  /** A report that is counted and not sent. */
  predicate SameSecond(before: seq<Event>, e: Event, ipc: bool) {
    e.Bytecount? && Opened(before, e.id) && !Sends(before, e, ipc)
  }

  /**
   What is sent, from the events: exactly one message for each sending report, with the name of its
   session and the bits gained in each direction per second since the client's last event.
   */
  lemma MessageExact(before: seq<Event>, e: Event, ipc: bool)
    ensures Run(before + [e], ipc).messages
            == Run(before, ipc).messages
               + if Sends(before, e, ipc)
                 then [Bitrate(LastName(before, e.id),
                               (8 * Gain(before, e, Rx)) as real / Elapsed(before, e) as real,
                               (8 * Gain(before, e, Tx)) as real / Elapsed(before, e) as real)]
                 else []
  {
    assert (before + [e])[..|before|] == before;
    assert Run(before + [e], ipc) == Handle(Run(before, ipc), e, ipc);
    CacheHoldsOpenSessions(before, ipc, e.id, Rx);
    CacheHoldsOpenSessions(before, ipc, e.id, Tx);
    CacheRemembersSession(before, ipc, e.id);
    hide Run, OpenCount, LastSeen, LastName, Opened;
  }

  /** The seconds behind the messages, in order. */
  function Intervals(events: seq<Event>, ipc: bool): (seconds: seq<int>) {
    if events == [] then [] else
      var before, e := events[..|events| - 1], events[|events| - 1];
      Intervals(before, ipc) + if Sends(before, e, ipc) then [Elapsed(before, e)] else []
  }

  /** Rate times interval. */
  function MessageBits(m: Bitrate, seconds: int, d: Direction): (r: real) {
    MessageRate(m, d) * seconds as real
  }

  /** The sum of rate times interval over the messages. */
  function SentBits(messages: seq<Bitrate>, intervals: seq<int>, d: Direction): (r: real)
    requires |messages| == |intervals|
  {
    if messages == [] then 0.0 else
      var n := |messages| - 1;
      SentBits(messages[..n], intervals[..n], d) + MessageBits(messages[n], intervals[n], d)
  }

  lemma SentBitsSnoc(messages: seq<Bitrate>, intervals: seq<int>, m: Bitrate, seconds: int, d: Direction)
    requires |messages| == |intervals|
    ensures SentBits(messages + [m], intervals + [seconds], d)
            == SentBits(messages, intervals, d) + MessageBits(m, seconds, d)
  {
    hide MessageBits;
    var n := |messages|;
    assert (messages + [m])[..n] == messages && (intervals + [seconds])[..n] == intervals;
  }

  /** Bytes counted by reports that sent no message. */
  function UnsentBytes(events: seq<Event>, ipc: bool, d: Direction): (n: int) {
    if events == [] then 0 else
      var n := |events| - 1;
      UnsentBytes(events[..n], ipc, d)
      + if SameSecond(events[..n], events[n], ipc) then Gain(events[..n], events[n], d) else 0
  }

  lemma RateTimesInterval(bits: int, seconds: int)
    requires seconds > 0
    ensures bits as real / seconds as real * seconds as real == bits as real
  {
  }

  lemma IntervalsSnoc(before: seq<Event>, e: Event, ipc: bool)
    ensures Intervals(before + [e], ipc)
            == Intervals(before, ipc) + if Sends(before, e, ipc) then [Elapsed(before, e)] else []
  {
    assert (before + [e])[..|before|] == before;
  }

  /** A report adds its bits to the messages, or nothing. */
  lemma SentStep(before: seq<Event>, e: Event, ipc: bool, d: Direction)
    requires |Run(before, ipc).messages| == |Intervals(before, ipc)|
    ensures |Run(before + [e], ipc).messages| == |Intervals(before + [e], ipc)|
    ensures SentBits(Run(before + [e], ipc).messages, Intervals(before + [e], ipc), d)
            == SentBits(Run(before, ipc).messages, Intervals(before, ipc), d)
               + if Sends(before, e, ipc) then (8 * Gain(before, e, d)) as real else 0.0
  {
    hide Run, Intervals, Gain, Elapsed, LastName, SentBits;
    var messages, intervals := Run(before, ipc).messages, Intervals(before, ipc);
    MessageExact(before, e, ipc);
    IntervalsSnoc(before, e, ipc);
    if Sends(before, e, ipc) {
      var m := Run(before + [e], ipc).messages[|messages|];
      assert MessageRate(m, d) == (8 * Gain(before, e, d)) as real / Elapsed(before, e) as real;
      hide MessageRate;
      SentBitsSnoc(messages, intervals, m, Elapsed(before, e), d);
      RateTimesInterval(8 * Gain(before, e, d), Elapsed(before, e));
    } else {
      assert messages + [] == messages && intervals + [] == intervals;
    }
  }

  /** A report is sent, or counted silently, or adds nothing. */
  lemma GainSplits(before: seq<Event>, e: Event, ipc: bool, d: Direction)
    ensures SessionTotal(before + [e], d) == SessionTotal(before, d) + Gain(before, e, d)
    ensures UnsentBytes(before + [e], ipc, d)
            == UnsentBytes(before, ipc, d) + if Sends(before, e, ipc) then 0 else Gain(before, e, d)
  {
    assert (before + [e])[..|before|] == before;
    SessionTotalSnoc(before, e, d);
    hide SessionTotal, OpenCount, Elapsed;
  }

  /** Rate times elapsed time, over the messages, is eight times the bytes of the reports that were sent. */
  lemma {:induction false} SentBitsAreGains(events: seq<Event>, ipc: bool, d: Direction)
    ensures |Run(events, ipc).messages| == |Intervals(events, ipc)|
    ensures SentBits(Run(events, ipc).messages, Intervals(events, ipc), d)
            == (8 * (SessionTotal(events, d) - UnsentBytes(events, ipc, d))) as real
  {
    if events == [] {
      return;
    }
    hide Run, Intervals, Gain, Sends, SessionTotal, UnsentBytes, SentBits;
    var before, e := events[..|events| - 1], events[|events| - 1];
    assert events == before + [e];
    SentBitsAreGains(before, ipc, d);
    SentStep(before, e, ipc, d);
    GainSplits(before, e, ipc, d);
  }

  /** Every counted byte is either in a message or was counted silently. */
  lemma BitsConserved(events: seq<Event>, ipc: bool, d: Direction)
    ensures var s, intervals := Run(events, ipc), Intervals(events, ipc);
            && |s.messages| == |intervals|
            && SentBits(s.messages, intervals, d) + (8 * UnsentBytes(events, ipc, d)) as real
               == (8 * Total(s, d)) as real
  {
    SentBitsAreGains(events, ipc, d);
    BytesConserved(events, ipc, d);
  }

  /** Within a session the counts do not decrease. */
  ghost predicate NonDecreasing(events: seq<Event>, d: Direction) {
    forall k :: 0 <= k < |events| ==> Gain(events[..k], events[k], d) >= 0
  }

  /** No report that carries bytes falls in the clock second of its client's event before. */
  ghost predicate AllSent(events: seq<Event>, ipc: bool, d: Direction) {
    forall k :: 0 <= k < |events| && SameSecond(events[..k], events[k], ipc) ==> Gain(events[..k], events[k], d) == 0
  }

  lemma NonDecreasingSnoc(events: seq<Event>, d: Direction)
    requires NonDecreasing(events, d) && events != []
    ensures var n := |events| - 1; NonDecreasing(events[..n], d) && Gain(events[..n], events[n], d) >= 0
  {
    hide Gain;
    var before := events[..|events| - 1];
    forall k | 0 <= k < |before| ensures Gain(before[..k], before[k], d) >= 0 {
      assert before[..k] == events[..k];
    }
  }

  lemma AllSentSnoc(events: seq<Event>, ipc: bool, d: Direction)
    requires events != []
    ensures var n := |events| - 1;
            AllSent(events, ipc, d) <==>
              && AllSent(events[..n], ipc, d)
              && (SameSecond(events[..n], events[n], ipc) ==> Gain(events[..n], events[n], d) == 0)
  {
    hide Gain, SameSecond;
    var n := |events| - 1;
    var before := events[..n];
    forall k | 0 <= k < n ensures before[..k] == events[..k] {
    }
    if AllSent(events, ipc, d) {
      forall k | 0 <= k < n && SameSecond(before[..k], before[k], ipc) ensures Gain(before[..k], before[k], d) == 0 {
        assert SameSecond(events[..k], events[k], ipc);
      }
    }
    if AllSent(before, ipc, d) && (SameSecond(before, events[n], ipc) ==> Gain(before, events[n], d) == 0) {
      forall k | 0 <= k <= n && SameSecond(events[..k], events[k], ipc) ensures Gain(events[..k], events[k], d) == 0 {
        if k < n { assert SameSecond(before[..k], before[k], ipc); }
      }
    }
  }

  lemma {:induction false} UnsentIsZeroIff(events: seq<Event>, ipc: bool, d: Direction)
    requires NonDecreasing(events, d)
    ensures UnsentBytes(events, ipc, d) >= 0
    ensures UnsentBytes(events, ipc, d) == 0 <==> AllSent(events, ipc, d)
  {
    if events == [] {
      return;
    }
    hide Gain, SameSecond, AllSent, NonDecreasing;
    NonDecreasingSnoc(events, d);
    AllSentSnoc(events, ipc, d);
    UnsentIsZeroIff(events[..|events| - 1], ipc, d);
  }

  /**
   With non-decreasing counts the bits sent never exceed eight times the counter, and they equal
   it exactly when no byte-carrying report was silent.
   */
  lemma SentBitsBounded(events: seq<Event>, ipc: bool, d: Direction)
    requires NonDecreasing(events, d)
    ensures var messages, intervals := Run(events, ipc).messages, Intervals(events, ipc);
            && |messages| == |intervals|
            && SentBits(messages, intervals, d) <= (8 * SessionTotal(events, d)) as real
            && (SentBits(messages, intervals, d) == (8 * SessionTotal(events, d)) as real
                <==> AllSent(events, ipc, d))
  {
    SentBitsAreGains(events, ipc, d);
    UnsentIsZeroIff(events, ipc, d);
  }

  // ---------------------------------------------------------------------------------------
  // The worker's handlers
  // ---------------------------------------------------------------------------------------

  class Accountant {
    var clientCache: map<int, Entry>
    var rxBytes: int
    var txBytes: int
    var outbox: seq<Bitrate>
    const ipc: bool
    /** What was handled so far. */
    ghost var events: seq<Event>

    ghost function Model(): (s: State)
      reads this
    {
      State(clientCache, rxBytes, txBytes, outbox)
    }

    /** The counters are the session totals of the events. */
    ghost predicate Valid()
      reads this
    {
      && Model() == Run(events, ipc)
      && rxBytes == SessionTotal(events, Rx) && txBytes == SessionTotal(events, Tx)
    }

    constructor (ipc: bool)
      ensures Valid() && events == [] && this.ipc == ipc
    {
      this.ipc := ipc;
      clientCache, rxBytes, txBytes, outbox, events := map[], 0, 0, [], [];
    }

    /** The `client:established` handler. */
    method ClientEstablished(id: int, commonName: string, now: int)
      requires Valid()
      modifies this
      ensures Valid() && events == old(events) + [Established(id, commonName, now)]
    {
      clientCache := clientCache[id := Entry(commonName, now, 0, 0)];
      Handled(events, Established(id, commonName, now), ipc);
      events := events + [Established(id, commonName, now)];
    }

    method WriteBandwidthMetrics(id: int, received: int, sent: int, now: int)
      requires Valid()
      modifies this
      ensures Valid() && events == old(events) + [Bytecount(id, received, sent, now)]
    {
      Handled(events, Bytecount(id, received, sent, now), ipc);
      hide Run, SessionTotal;
      events := events + [Bytecount(id, received, sent, now)];
      if id !in clientCache {
        return;
      }
      var entry := clientCache[id];
      var rxDelta := received - entry.received;
      var txDelta := sent - entry.sent;
      var timeDelta := now - entry.ts;
      rxBytes := rxBytes + rxDelta;
      txBytes := txBytes + txDelta;
      if timeDelta > 0 && ipc {
        outbox := outbox + [Bitrate(entry.uuid, Rate(rxDelta, timeDelta), Rate(txDelta, timeDelta))];
      }
      clientCache := clientCache[id := entry.(received := received, sent := sent, ts := entry.ts + timeDelta)];
    }
  }

  lemma Handled(events: seq<Event>, e: Event, ipc: bool)
    ensures Run(events + [e], ipc) == Handle(Run(events, ipc), e, ipc)
    ensures Run(events + [e], ipc).rxBytes == SessionTotal(events + [e], Rx)
    ensures Run(events + [e], ipc).txBytes == SessionTotal(events + [e], Tx)
  {
    assert (events + [e])[..|events|] == events;
    BytesConserved(events + [e], ipc, Rx);
    BytesConserved(events + [e], ipc, Tx);
  }
}
