/** `VpnManager` of src/utils/openvpn.ts as an object whose listeners are swapped, proved against module Management. */
module ManagementCode {
  import opened Sequences
  import opened Text
  import opened LineSplitter
  import opened Management
  import opened ManagementRoundTrip

  /** The functions subscribed to `manager:data`; an emitter carries what its closure captured. */
  datatype Listener = Console | DataHandler | Emitter(block: Block)

  /** `off(listener)` */
  function Without(s: seq<Listener>, l: Listener): (r: seq<Listener>) {
    if s == [] then [] else (if s[0] == l then [] else [s[0]]) + Without(s[1..], l)
  }

  /** The loop over the event names. */
  method FindKind(text: string) returns (kind: Option<Kind>)
    ensures kind == HeaderKind(text)
  {
    var kinds := [Established, Connect, Address, Disconnect];
    for k := 0 to |kinds|
      invariant forall j :: 0 <= j < k ==> !(KindText(kinds[j]) <= text)
    {
      if KindText(kinds[k]) <= text {
        assert forall j :: 0 <= j < k ==> kinds[j] != kinds[k];
        return Some(kinds[k]);
      }
    }
    assert kinds[0] == Established && kinds[1] == Connect && kinds[2] == Address && kinds[3] == Disconnect;
    return None;
  }

  class VpnManager {
    var buf: string
    var listeners: seq<Listener>
    /** The events emitted to the rest of the program. */
    var emitted: seq<Output>
    /** The lines passed to `dataHandler`. */
    ghost var handled: seq<string>
    const debug: bool

    ghost function Printers(): (n: nat) {
      if debug then 1 else 0
    }

    /** Exactly one parser handler is subscribed, after the debug printer if there is one. */
    ghost predicate Valid()
      reads this
    {
      && |listeners| == Printers() + 1
      && (debug ==> listeners[0] == Console)
      && listeners[Printers()] != Console
    }

    ghost function CurrentMode(): (m: Mode)
      requires Valid()
      reads this
    {
      var l := listeners[Printers()];
      if l.Emitter? then Open(l.block) else Idle
    }

    ghost function Position(): (r: Result)
      requires Valid()
      reads this
    {
      Result(CurrentMode(), emitted, handled)
    }

    constructor (debug: bool)
      ensures Valid() && buf == "" && Position() == Result(Idle, [], []) && this.debug == debug
    {
      this.debug := debug;
      buf, emitted, handled := "", [], [];
      listeners := if debug then [Console, DataHandler] else [DataHandler];
    }

    /** `off` the current parser handler, `on` the next one. */
    method Swap(current: Listener, next: Listener)
      requires Valid() && listeners[Printers()] == current && next != Console
      modifies this`listeners
      ensures Valid() && listeners[Printers()] == next
    {
      assert Without([current], current) == [];
      if debug {
        assert listeners == [Console, current] && listeners[1..] == [current];
      } else {
        assert listeners == [current];
      }
      listeners := Without(listeners, current);
      listeners := listeners + [next];
    }

    /** `dataHandler` */
    method HandleData(line: string)
      requires Valid() && CurrentMode() == Idle
      modifies this
      ensures Valid() && buf == old(buf)
      ensures Position() == Then(old(Position()), IdleStep(line))
    {
      handled := handled + [line];
      if LOG <= line {
        var fields := Split(line[|LOG|..], ',');
        var log := Log(Level(Field(fields, 1)), Join(if |fields| > 2 then fields[2..] else [], ','));
        assert IdleStep(line) == Result(Idle, [log], [line]);
        emitted := emitted + [log];
      } else if CLIENT <= line {
        HandleClient(line);
      } else if COUNT <= line {
        var fields := Split(line[|COUNT|..], ',');
        var count := Count(ParseInt(fields[0]), ParseInt(Field(fields, 1)), ParseInt(Field(fields, 2)));
        assert IdleStep(line) == Result(Idle, [count], [line]);
        emitted := emitted + [count];
      }
    }

    /** The branch of `dataHandler` for client lines. */
    method HandleClient(line: string)
      requires Valid() && CurrentMode() == Idle && CLIENT <= line && !(LOG <= line)
      modifies this`listeners
      ensures Valid() && CurrentMode() == IdleStep(line).mode && IdleStep(line).outs == []
    {
      var text := line[|CLIENT|..];
      var kind := FindKind(text);
      if kind.Some? {
        var fields := Split(From(text, |KindText(kind.value)| + 1), ',');
        Swap(DataHandler, Emitter(Block(kind.value, ParseInt(fields[0]), fields[1..], map[])));
      } else {
        assert line[1] == 'C' && COUNT[1] == 'B';
      }
    }

    /**
     The closure of `clientEventEmitterFactory`. `nested` counts the dispatches it starts itself:
     one when the line is neither an ENV line nor the end marker.
     */
    method HandleBlock(b: Block, line: string) returns (nested: nat)
      requires Valid() && CurrentMode() == Open(b)
      modifies this
      ensures Valid() && buf == old(buf)
      ensures Position() == Then(old(Position()), BlockStep(b, line))
      ensures nested == if IsEnv(line) || line == END then 0 else 1
      decreases 1, 0
    {
      nested := 0;
      if ENV <= line && line != END {
        var i := if debug then 1 else 0;
        listeners := listeners[i := Emitter(b.(env := AddEnv(b.env, line)))];
      } else {
        Swap(Emitter(b), DataHandler);
        emitted := emitted + [Client(b)];
        if line != END {
          ThenAssociative(old(Position()), Result(Idle, [Client(b)], []), IdleStep(line));
          nested := Dispatch(line);
          nested := nested + 1;
        }
      }
    }

    /**
     `emit('manager:data', line)`: every listener subscribed at this moment is called, whatever
     the calls before it subscribe. Re-dispatching nests at most once.
     */
    method Dispatch(line: string) returns (nested: nat)
      requires Valid()
      modifies this
      ensures Valid() && buf == old(buf)
      ensures Position() == Then(old(Position()), Step(old(CurrentMode()), line))
      ensures nested == if old(CurrentMode()) == Idle || IsEnv(line) || line == END then 0 else 1
      decreases if CurrentMode() == Idle then 0 else 1, 1
    {
      var snapshot := listeners;
      nested := 0;
      for k := 0 to |snapshot|
        invariant Valid() && buf == old(buf)
        invariant k < |snapshot| ==> Position() == old(Position()) && listeners == snapshot && nested == 0
        invariant k == |snapshot| ==> Position() == Then(old(Position()), Step(old(CurrentMode()), line))
        invariant k == |snapshot| ==>
                    nested == if old(CurrentMode()) == Idle || IsEnv(line) || line == END then 0 else 1
      {
        match snapshot[k]
        case Console =>
        case DataHandler => HandleData(line);
        case Emitter(b) => nested := HandleBlock(b, line);
      }
    }

    /** The loop over the complete lines of a chunk. */
    method EmitLines(lines: seq<string>)
      requires Valid()
      modifies this
      ensures Valid() && buf == old(buf)
      ensures Position() == Then(old(Position()), Feed(old(CurrentMode()), TrimAll(lines)))
    {
      ghost var start, trimmed := Position(), TrimAll(lines);
      FeedNothing(start);
      hide Step, Feed, Trim, Then, TrimAll;
      for k := 0 to |lines|
        invariant Valid() && buf == old(buf)
        invariant Position() == Then(start, Feed(start.mode, trimmed[..k]))
      {
        FeedPrefix(start, trimmed, k);
        var _ := Dispatch(Trim(lines[k]));
      }
      assert trimmed[..|lines|] == trimmed;
    }

    /** The listener on the connector's `data` event. */
    method OnData(data: string)
      requires Valid()
      modifies this
      ensures Valid()
      ensures Reader(buf, Position()) == Deliver(Reader(old(buf), old(Position())), data)
    {
      hide Feed, SplitLines, Then, TrimAll;
      var lines := SplitLines(buf + data);
      buf := lines[|lines| - 1];
      EmitLines(lines[..|lines| - 1]);
    }
  }

  lemma FeedNothing(start: Result)
    ensures Then(start, Feed(start.mode, [])) == start
  {
  }

  /** Feeding one more line. */
  lemma FeedSnoc(start: Result, lines: seq<string>, line: string)
    ensures var x := Feed(start.mode, lines);
            && Then(start, Feed(start.mode, lines + [line])) == Then(Then(start, x), Step(x.mode, line))
            && Then(start, x).mode == x.mode
  {
    var x := Feed(start.mode, lines);
    FeedAppend(start.mode, lines, [line]);
    var last := Step(x.mode, line);
    assert Feed(x.mode, [line]) == last by {
      assert [line][1..] == [];
      assert Then(last, Result(last.mode, [], [])) == last;
    }
    ThenAssociative(start, x, last);
  }

  lemma FeedPrefix(start: Result, lines: seq<string>, k: nat)
    requires k < |lines|
    ensures var x := Feed(start.mode, lines[..k]);
            && Then(start, Feed(start.mode, lines[..k + 1])) == Then(Then(start, x), Step(x.mode, lines[k]))
            && Then(start, x).mode == x.mode
  {
    hide Feed, Step, Then;
    assert lines[..k + 1] == lines[..k] + [lines[k]];
    FeedSnoc(start, lines[..k], lines[k]);
  }
}
