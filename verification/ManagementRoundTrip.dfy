/** Printing management events and parsing the stream back (src/utils/openvpn.ts). */
module ManagementRoundTrip {
  import opened Sequences
  import opened Text
  import opened LineSplitter
  import opened Management

  /** What OpenVPN reports: a client event with its environment, a log message, a byte count. */
  datatype Item =
    | Event(kind: Kind, id: nat, args: seq<string>, env: seq<(string, string)>)
    | Message(time: string, level: string, message: string)
    | Bytes(id: nat, received: nat, sent: nat)

  /** The names of the events in the protocol. */
  function EventName(kind: Kind): (s: string) {
    match kind
    case Established => "ESTABLISHED"
    case Connect => "CONNECT"
    case Address => "ADDRESS"
    case Disconnect => "DISCONNECT"
  }

  /** The level letters of the protocol and the names they are logged under. */
  const LEVELS: map<string, string> :=
    map["D" := "debug", "I" := "info", "n" := "notice", "W" := "warning", "N" := "error", "F" := "emerg",
        "" := "notice"]

  function HeaderLine(kind: Kind, id: nat, args: seq<string>): (s: string) {
    ">CLIENT:" + EventName(kind) + "," + Join([Digits(id)] + args, ',')
  }

  function EnvLine(pair: (string, string)): (s: string) {
    ">CLIENT:ENV," + pair.0 + "=" + pair.1
  }

  function EnvLines(env: seq<(string, string)>): (lines: seq<string>)
    ensures |lines| == |env| && forall i :: 0 <= i < |env| ==> lines[i] == EnvLine(env[i])
  {
    seq(|env|, i requires 0 <= i < |env| => EnvLine(env[i]))
  }

  function PrintItem(item: Item): (lines: seq<string>) {
    match item
    case Event(kind, id, args, env) => [HeaderLine(kind, id, args)] + EnvLines(env) + [">CLIENT:ENV,END"]
    case Message(time, level, message) => [">LOG:" + time + "," + level + "," + message]
    case Bytes(id, received, sent) => [">BYTECOUNT_CLI:" + Join([Digits(id), Digits(received), Digits(sent)], ',')]
  }

  function Print(items: seq<Item>): (lines: seq<string>) {
    if items == [] then [] else PrintItem(items[0]) + Print(items[1..])
  }

  /** The separators do not occur in the fields that end at them; a value may hold any of them. */
  predicate Separable(item: Item) {
    match item
    case Event(_, _, args, env) =>
      && (forall i :: 0 <= i < |args| ==> ',' !in args[i])
      && (forall i :: 0 <= i < |env| ==> '=' !in env[i].0)
    case Message(time, level, _) => ',' !in time && ',' !in level
    case Bytes(_, _, _) => true
  }

  /** A line that splitting and trimming leave alone. */
  predicate Survives(line: string) {
    OneLine(line) && Trim(line) == line
  }

  ghost predicate Printable(item: Item) {
    Separable(item) && forall i :: 0 <= i < |PrintItem(item)| ==> Survives(PrintItem(item)[i])
  }

  /** A value up to its first `=`: the handler keeps the second part of the line only. */
  function Cut(value: string): (s: string) {
    value[..IndexOf(value, '=')]
  }

  /** The environment as an object, later assignments to a key replacing earlier ones. */
  function Collect(env: Env, pairs: seq<(string, string)>): (r: Env)
    decreases |pairs|
  {
    if pairs == [] then env else Collect(env[pairs[0].0 := Some(Cut(pairs[0].1))], pairs[1..])
  }

  function Expected(item: Item): (o: Output) {
    match item
    case Event(kind, id, args, env) => Client(Block(kind, Some(id), args, Collect(map[], env)))
    case Message(_, level, message) => Log(if level in LEVELS then Some(LEVELS[level]) else None, message)
    case Bytes(id, received, sent) => Count(Some(id), Some(received), Some(sent))
  }

  function ExpectedAll(items: seq<Item>): (outs: seq<Output>)
    ensures |outs| == |items| && forall i :: 0 <= i < |items| ==> outs[i] == Expected(items[i])
  {
    seq(|items|, i requires 0 <= i < |items| => Expected(items[i]))
  }

  ghost predicate DistinctKeys(pairs: seq<(string, string)>) {
    forall i, j :: 0 <= i < j < |pairs| ==> pairs[i].0 != pairs[j].0
  }

  /** With distinct keys the object holds exactly the given keys, each with its value up to the first `=`. */
  lemma {:induction false} CollectExact(env: Env, pairs: seq<(string, string)>)
    requires DistinctKeys(pairs)
    requires forall i :: 0 <= i < |pairs| ==> pairs[i].0 !in env
    ensures var r := Collect(env, pairs);
            && (forall i :: 0 <= i < |pairs| ==> pairs[i].0 in r && r[pairs[i].0] == Some(Cut(pairs[i].1)))
            && (forall k :: k in env ==> k in r && r[k] == env[k])
            && (forall k :: k in r ==> k in env || exists i :: 0 <= i < |pairs| && pairs[i].0 == k)
    decreases |pairs|
  {
    hide Cut;
    if pairs != [] {
      var rest := pairs[1..];
      var env' := env[pairs[0].0 := Some(Cut(pairs[0].1))];
      CollectExact(env', rest);
      var r := Collect(env, pairs);
      assert r == Collect(env', rest);
      assert pairs[0].0 in env';
      forall k | k in r && k !in env ensures exists i :: 0 <= i < |pairs| && pairs[i].0 == k {
        if k != pairs[0].0 {
          var i :| 0 <= i < |rest| && rest[i].0 == k;
          assert pairs[i + 1].0 == k;
        } else {
          assert pairs[0].0 == k;
        }
      }
      forall i | 0 <= i < |pairs| ensures pairs[i].0 in r && r[pairs[i].0] == Some(Cut(pairs[i].1)) {
        if i > 0 { assert rest[i - 1] == pairs[i]; }
      }
    }
  }

  lemma CutIff(value: string)
    ensures Cut(value) == value <==> '=' !in value
  {
    if '=' !in value {
      assert IndexOf(value, '=') == |value|;
    }
  }

  /** The environment arrives as it was sent if and only if no value holds a `=`. */
  lemma ValuesKeptIff(pairs: seq<(string, string)>)
    requires DistinctKeys(pairs)
    ensures (forall i :: 0 <= i < |pairs| ==>
               pairs[i].0 in Collect(map[], pairs) && Collect(map[], pairs)[pairs[i].0] == Some(pairs[i].1))
            <==> forall i :: 0 <= i < |pairs| ==> '=' !in pairs[i].1
  {
    CollectExact(map[], pairs);
    hide Collect, Cut;
    forall i | 0 <= i < |pairs| ensures Cut(pairs[i].1) == pairs[i].1 <==> '=' !in pairs[i].1 {
      CutIff(pairs[i].1);
    }
  }

  // ---------------------------------------------------------------------------------------
  // Line by line
  // ---------------------------------------------------------------------------------------

  lemma KindOfText(kind: Kind, text: string)
    requires KindText(kind) <= text
    ensures HeaderKind(text) == Some(kind)
  {
    assert text[0] == KindText(kind)[0];
    assert forall k :: KindText(k) <= text ==> KindText(k)[0] == text[0];
  }

  lemma ClientLine(text: string)
    ensures var line := CLIENT + text; !(LOG <= line) && CLIENT <= line && line[|CLIENT|..] == text
  {
    assert (CLIENT + text)[1] == 'C' && LOG[1] == 'L';
  }

  lemma EventNames(kind: Kind)
    ensures EventName(kind) == KindText(kind) && CLIENT == ">CLIENT:"
  {
  }

  lemma HeaderText(kind: Kind, fields: string)
    ensures var line := ">CLIENT:" + EventName(kind) + "," + fields;
            && IsHeader(line)
            && HeaderKind(line[|CLIENT|..]) == Some(kind)
            && From(line[|CLIENT|..], |KindText(kind)| + 1) == fields
  {
    var name := KindText(kind);
    var text := name + "," + fields;
    EventNames(kind);
    hide KindText, EventName, HeaderKind, LOG, CLIENT;
    assert CLIENT + name + "," + fields == CLIENT + text;
    ClientLine(text);
    KindOfText(kind, text);
    assert text[|name| + 1..] == fields;
  }

  /** A header opens a block of its kind, with its client id and its arguments. */
  lemma HeaderOpens(kind: Kind, id: nat, args: seq<string>)
    requires forall i :: 0 <= i < |args| ==> ',' !in args[i]
    ensures IsHeader(HeaderLine(kind, id, args))
    ensures OpenBlock(HeaderLine(kind, id, args)) == Block(kind, Some(id), args, map[])
  {
    var fields := [Digits(id)] + args;
    HeaderText(kind, Join(fields, ','));
    DigitsAvoid(id, ',');
    SplitJoin(fields, ',');
    ParseDigits(id);
    assert fields[1..] == args;
  }

  /** The four headers, written out. */
  lemma HeaderLiterals(id: nat, args: seq<string>)
    requires forall i :: 0 <= i < |args| ==> ',' !in args[i]
    ensures var fields := "," + Join([Digits(id)] + args, ',');
            && IdleStep(">CLIENT:ESTABLISHED" + fields).mode == Open(Block(Established, Some(id), args, map[]))
            && IdleStep(">CLIENT:CONNECT" + fields).mode == Open(Block(Connect, Some(id), args, map[]))
            && IdleStep(">CLIENT:ADDRESS" + fields).mode == Open(Block(Address, Some(id), args, map[]))
            && IdleStep(">CLIENT:DISCONNECT" + fields).mode == Open(Block(Disconnect, Some(id), args, map[]))
  {
    hide IdleStep, Join, EventName;
    HeaderStarts();
    HeaderLiteral(Established, ">CLIENT:ESTABLISHED", id, args);
    HeaderLiteral(Connect, ">CLIENT:CONNECT", id, args);
    HeaderLiteral(Address, ">CLIENT:ADDRESS", id, args);
    HeaderLiteral(Disconnect, ">CLIENT:DISCONNECT", id, args);
  }

  lemma HeaderStarts()
    ensures ">CLIENT:ESTABLISHED" == ">CLIENT:" + EventName(Established)
    ensures ">CLIENT:CONNECT" == ">CLIENT:" + EventName(Connect)
    ensures ">CLIENT:ADDRESS" == ">CLIENT:" + EventName(Address)
    ensures ">CLIENT:DISCONNECT" == ">CLIENT:" + EventName(Disconnect)
  {
  }

  lemma HeaderLiteral(kind: Kind, start: string, id: nat, args: seq<string>)
    requires start == ">CLIENT:" + EventName(kind) && forall i :: 0 <= i < |args| ==> ',' !in args[i]
    ensures IdleStep(start + ("," + Join([Digits(id)] + args, ','))).mode == Open(Block(kind, Some(id), args, map[]))
  {
    hide OpenBlock, IsHeader, Join;
    HeaderOpens(kind, id, args);
    ConcatAssociative(start, ",", Join([Digits(id)] + args, ','));
  }

  lemma EnvText(text: string)
    requires text != "END"
    ensures IsEnv(">CLIENT:ENV," + text) && From(">CLIENT:ENV," + text, |ENV| + 1) == text
  {
    var line := ">CLIENT:ENV," + text;
    assert line[|ENV| + 1..] == text;
    assert END[|ENV| + 1..] == "END";
  }

  lemma EnvLineAdds(env: Env, pair: (string, string))
    requires '=' !in pair.0
    ensures IsEnv(EnvLine(pair))
    ensures AddEnv(env, EnvLine(pair)) == env[pair.0 := Some(Cut(pair.1))]
  {
    var text := pair.0 + "=" + pair.1;
    assert text[|pair.0|] == '=';
    assert '=' !in "END";
    assert EnvLine(pair) == ">CLIENT:ENV," + text;
    EnvText(text);
    SplitCons(pair.0, '=', pair.1);
    assert Split(pair.1, '=')[0] == Cut(pair.1);
  }

  /** Inside a block: an environment line, one with a second `=`, one without any, and the end marker. */
  lemma BlockLines(b: Block, key: string, value: string, rest: string)
    requires '=' !in key && '=' !in value
    ensures Step(Open(b), ">CLIENT:ENV," + key + "=" + value)
            == Result(Open(b.(env := b.env[key := Some(value)])), [], [])
    ensures Step(Open(b), ">CLIENT:ENV," + key + "=" + (value + "=" + rest))
            == Result(Open(b.(env := b.env[key := Some(value)])), [], [])
    ensures key != "END" ==> Step(Open(b), ">CLIENT:ENV," + key) == Result(Open(b.(env := b.env[key := None])), [], [])
    ensures Step(Open(b), ">CLIENT:ENV,END") == Result(Idle, [Client(b)], [])
  {
    CutText(value, rest);
    hide Cut, IsEnv, ENV, END, Split;
    EnvLineAdds(b.env, (key, value));
    EnvLineAdds(b.env, (key, value + "=" + rest));
    if key != "END" {
      EnvText(key);
      SplitNone(key, '=');
    }
    EndMarker();
  }

  lemma CutText(value: string, rest: string)
    requires '=' !in value
    ensures Cut(value) == value && Cut(value + "=" + rest) == value
  {
    CutIff(value);
    IndexOfAppend(value, '=', rest);
  }

  lemma EndMarker()
    ensures END == ">CLIENT:ENV,END" && !IsEnv(END)
  {
  }

  lemma {:induction false} EnvLinesAdd(env: Env, pairs: seq<(string, string)>)
    requires forall i :: 0 <= i < |pairs| ==> '=' !in pairs[i].0
    ensures forall i :: 0 <= i < |pairs| ==> IsEnv(EnvLines(pairs)[i])
    ensures AddEnvs(env, EnvLines(pairs)) == Collect(env, pairs)
    decreases |pairs|
  {
    if pairs != [] {
      EnvLineAdds(env, pairs[0]);
      EnvLinesAdd(AddEnv(env, EnvLine(pairs[0])), pairs[1..]);
      assert EnvLines(pairs)[1..] == EnvLines(pairs[1..]);
    }
  }

  /** A log line gives the name of its level, if it has one, and its whole message. */
  lemma MessageParses(time: string, level: string, message: string)
    requires ',' !in time && ',' !in level
    ensures var line := ">LOG:" + time + "," + level + "," + message;
            && IdleStep(line).mode == Idle
            && IdleStep(line).outs == [Log(if level in LEVELS then Some(LEVELS[level]) else None, message)]
  {
    LevelIs(level);
    hide Split, Join, Level, LEVELS;
    var line, tail := LOG + time + "," + level + "," + message, level + "," + message;
    assert line == LOG + (time + "," + tail);
    assert line[|LOG|..] == time + "," + tail;
    SplitCons(time, ',', tail);
    SplitCons(level, ',', message);
    var fields := Split(line[|LOG|..], ',');
    assert fields == [time, level] + Split(message, ',');
    assert fields[2..] == Split(message, ',');
    JoinSplit(message, ',');
  }

  lemma LevelIs(level: string)
    ensures Level(level) == if level in LEVELS then Some(LEVELS[level]) else None
  {
  }

  /** The levels, written out; any other one has no name. */
  lemma LogLevels(time: string, message: string)
    requires ',' !in time
    ensures IdleStep(">LOG:" + time + ",D," + message).outs == [Log(Some("debug"), message)]
    ensures IdleStep(">LOG:" + time + ",I," + message).outs == [Log(Some("info"), message)]
    ensures IdleStep(">LOG:" + time + ",n," + message).outs == [Log(Some("notice"), message)]
    ensures IdleStep(">LOG:" + time + ",W," + message).outs == [Log(Some("warning"), message)]
    ensures IdleStep(">LOG:" + time + ",N," + message).outs == [Log(Some("error"), message)]
    ensures IdleStep(">LOG:" + time + ",F," + message).outs == [Log(Some("emerg"), message)]
    ensures IdleStep(">LOG:" + time + ",," + message).outs == [Log(Some("notice"), message)]
    ensures forall level :: ',' !in level && level !in ["D", "I", "n", "W", "N", "F", ""] ==>
              IdleStep(">LOG:" + time + "," + level + "," + message).outs == [Log(None, message)]
  {
    hide IdleStep;
    LogLevel(time, message, "D");
    LogLevel(time, message, "I");
    LogLevel(time, message, "n");
    LogLevel(time, message, "W");
    LogLevel(time, message, "N");
    LogLevel(time, message, "F");
    LogLevel(time, message, "");
    assert ",D," == "," + "D" + "," && ",I," == "," + "I" + "," && ",n," == "," + "n" + ",";
    assert ",W," == "," + "W" + "," && ",N," == "," + "N" + "," && ",F," == "," + "F" + ",";
    assert ",," == "," + "" + ",";
    forall level | ',' !in level && level !in ["D", "I", "n", "W", "N", "F", ""]
      ensures IdleStep(">LOG:" + time + "," + level + "," + message).outs == [Log(None, message)]
    {
      MessageParses(time, level, message);
    }
  }

  lemma LogLevel(time: string, message: string, level: string)
    requires ',' !in time && ',' !in level
    ensures IdleStep(">LOG:" + time + ("," + level + ",") + message).outs
            == [Log(if level in LEVELS then Some(LEVELS[level]) else None, message)]
  {
    hide IdleStep, LEVELS;
    assert ">LOG:" + time + ("," + level + ",") + message == ">LOG:" + time + "," + level + "," + message;
    MessageParses(time, level, message);
  }

  /** A log line that stops before its message or before its level. */
  lemma ShortLogs(time: string, level: string)
    requires ',' !in time && ',' !in level
    ensures IdleStep(">LOG:" + time).outs == [Log(Some("notice"), "")]
    ensures IdleStep(">LOG:" + time + "," + level).outs
            == [Log(if level in LEVELS then Some(LEVELS[level]) else None, "")]
  {
    LevelIs(level);
    var a, b := ">LOG:" + time, ">LOG:" + time + "," + level;
    assert a[|LOG|..] == time && b[|LOG|..] == time + "," + level;
    hide LEVELS;
    SplitNone(time, ',');
    SplitNone(level, ',');
    SplitCons(time, ',', level);
  }

  /** The lines an idle parser passes over are those that begin with none of the six known texts. */
  lemma IgnoredIff(line: string)
    ensures IdleStep(line) == Result(Idle, [], [line]) <==>
              && !(">LOG:" <= line) && !(">BYTECOUNT_CLI:" <= line)
              && !(">CLIENT:ESTABLISHED" <= line) && !(">CLIENT:CONNECT" <= line)
              && !(">CLIENT:ADDRESS" <= line) && !(">CLIENT:DISCONNECT" <= line)
  {
    hide IsHeader, OpenBlock;
    HeaderIff(line);
  }

  /** The headers are the lines that begin with one of the four events. */
  lemma HeaderIff(line: string)
    ensures IsHeader(line) <==>
              || ">CLIENT:ESTABLISHED" <= line || ">CLIENT:CONNECT" <= line
              || ">CLIENT:ADDRESS" <= line || ">CLIENT:DISCONNECT" <= line
  {
    if LOG <= line || CLIENT <= line {
      assert line[1] == if LOG <= line then 'L' else 'C';
    }
    KindTexts();
    hide KindText, LOG, CLIENT;
    PrefixOfRest(CLIENT, KindText(Established), line);
    PrefixOfRest(CLIENT, KindText(Connect), line);
    PrefixOfRest(CLIENT, KindText(Address), line);
    PrefixOfRest(CLIENT, KindText(Disconnect), line);
  }

  lemma KindTexts()
    ensures CLIENT + KindText(Established) == ">CLIENT:ESTABLISHED"
    ensures CLIENT + KindText(Connect) == ">CLIENT:CONNECT"
    ensures CLIENT + KindText(Address) == ">CLIENT:ADDRESS"
    ensures CLIENT + KindText(Disconnect) == ">CLIENT:DISCONNECT"
  {
  }

  lemma PrefixOfRest(a: string, b: string, s: string)
    ensures a <= s && b <= s[|a|..] <==> a + b <= s
  {
    if a + b <= s {
      assert a == (a + b)[..|a|] == s[..|a|];
      assert b == (a + b)[|a|..] == s[|a|..][..|b|];
    }
    if a <= s && b <= s[|a|..] {
      assert s == a + s[|a|..];
      assert s[|a|..] == b + s[|a|..][|b|..];
    }
  }

  lemma CountFields(id: nat, received: nat, sent: nat)
    ensures var fields := [Digits(id), Digits(received), Digits(sent)];
            Split(Join(fields, ','), ',') == fields
  {
    DigitsAvoid(id, ',');
    DigitsAvoid(received, ',');
    DigitsAvoid(sent, ',');
    SplitJoin([Digits(id), Digits(received), Digits(sent)], ',');
  }

  lemma CountLine(text: string)
    ensures var line := ">BYTECOUNT_CLI:" + text;
            !(LOG <= line) && !IsHeader(line) && COUNT <= line && line[|COUNT|..] == text
  {
    var line := ">BYTECOUNT_CLI:" + text;
    assert line[1] == 'B' && LOG[1] == 'L' && CLIENT[1] == 'C';
  }

  lemma BytesParse(id: nat, received: nat, sent: nat)
    ensures var line := ">BYTECOUNT_CLI:" + Join([Digits(id), Digits(received), Digits(sent)], ',');
            IdleStep(line).mode == Idle && IdleStep(line).outs == [Count(Some(id), Some(received), Some(sent))]
  {
    CountLine(Join([Digits(id), Digits(received), Digits(sent)], ','));
    CountFields(id, received, sent);
    ParseDigits(id);
    ParseDigits(received);
    ParseDigits(sent);
  }

  lemma ItemParses(item: Item, after: seq<string>)
    requires Separable(item)
    ensures var r := Feed(Idle, after);
            Feed(Idle, PrintItem(item) + after).outs == [Expected(item)] + r.outs
            && Feed(Idle, PrintItem(item) + after).mode == r.mode
  {
    match item
    case Event(kind, id, args, env) =>
      HeaderOpens(kind, id, args);
      EnvLinesAdd(map[], env);
      FeedEnded(HeaderLine(kind, id, args), EnvLines(env), after);
    case Message(time, level, message) =>
      MessageParses(time, level, message);
      assert (PrintItem(item) + after)[1..] == after;
    case Bytes(id, received, sent) =>
      BytesParse(id, received, sent);
      assert (PrintItem(item) + after)[1..] == after;
  }

  lemma ExpectedCons(items: seq<Item>)
    requires items != []
    ensures ExpectedAll(items) == [Expected(items[0])] + ExpectedAll(items[1..])
  {
    hide Expected;
  }

  lemma {:induction false} ItemsParse(items: seq<Item>)
    requires forall i :: 0 <= i < |items| ==> Separable(items[i])
    ensures Feed(Idle, Print(items)).mode == Idle
    ensures Feed(Idle, Print(items)).outs == ExpectedAll(items)
  {
    if items == [] {
      return;
    }
    ExpectedCons(items);
    hide Feed, PrintItem, Expected, Separable, ExpectedAll;
    ItemsParse(items[1..]);
    ItemParses(items[0], Print(items[1..]));
  }

  // ---------------------------------------------------------------------------------------
  // The whole stream
  // ---------------------------------------------------------------------------------------

  function TrimAll(lines: seq<string>): (r: seq<string>)
    ensures |r| == |lines| && forall i :: 0 <= i < |lines| ==> r[i] == Trim(lines[i])
  {
    seq(|lines|, i requires 0 <= i < |lines| => Trim(lines[i]))
  }

  lemma {:induction false} PrintedSurvives(items: seq<Item>)
    requires forall i :: 0 <= i < |items| ==> Printable(items[i])
    ensures forall k :: 0 <= k < |Print(items)| ==> Survives(Print(items)[k])
  {
    if items != [] {
      PrintedSurvives(items[1..]);
    }
  }

  /** The object between two chunks: its buffer, its mode, and what it has emitted and handled. */
  datatype Reader = Reader(buf: string, position: Result)

  const STARTED: Reader := Reader("", Result(Idle, [], []))

  /** One chunk arrives. */
  function Deliver(r: Reader, data: string): (t: Reader) {
    var parts := SplitLines(r.buf + data);
    Reader(Last(parts), Then(r.position, Feed(r.position.mode, TrimAll(Init(parts)))))
  }

  function DeliverAll(r: Reader, chunks: seq<string>): (t: Reader)
    decreases |chunks|
  {
    if chunks == [] then r else DeliverAll(Deliver(r, chunks[0]), chunks[1..])
  }

  lemma TrimAppend(a: seq<string>, b: seq<string>)
    ensures TrimAll(a + b) == TrimAll(a) + TrimAll(b)
  {
    hide Trim;
  }

  /** The chunks one by one are the received lines at once. */
  lemma {:induction false} DeliverIsReceive(r: Reader, chunks: seq<string>)
    ensures var (lines, buf) := Receive(r.buf, chunks);
            DeliverAll(r, chunks) == Reader(buf, Then(r.position, Feed(r.position.mode, TrimAll(lines))))
    decreases |chunks|
  {
    if chunks == [] {
      assert Feed(r.position.mode, TrimAll([])) == Result(r.position.mode, [], []);
      return;
    }
    var parts := SplitLines(r.buf + chunks[0]);
    var first := Deliver(r, chunks[0]);
    var x := Feed(r.position.mode, TrimAll(Init(parts)));
    assert first == Reader(Last(parts), Then(r.position, x)) && first.position.mode == x.mode;
    var (rest, buf) := Receive(first.buf, chunks[1..]);
    assert Receive(r.buf, chunks) == (Init(parts) + rest, buf);
    hide Feed, SplitLines, Then, TrimAll, Deliver, Init, Last, Receive;
    DeliverIsReceive(first, chunks[1..]);
    TrimAppend(Init(parts), rest);
    FeedAppend(r.position.mode, TrimAll(Init(parts)), TrimAll(rest));
    ThenAssociative(r.position, x, Feed(x.mode, TrimAll(rest)));
  }

  /**
   Any list of events, messages and counts, printed with either line end and delivered in chunks
   cut anywhere, comes out as exactly those events, in order, with their contents except that an
   environment value ends at its first `=`; the buffer is empty and no block is open at the end.
   */
  lemma StreamRoundTrip(items: seq<Item>, eol: string, chunks: seq<string>)
    requires IsEol(eol) && forall i :: 0 <= i < |items| ==> Printable(items[i])
    requires Flatten(chunks) == PrintLines(Print(items), eol)
    ensures var end := DeliverAll(STARTED, chunks);
            end.buf == "" && end.position.mode == Idle && end.position.outs == ExpectedAll(items)
  {
    var printed := Print(items);
    PrintedSurvives(items);
    SplitPrinted(printed, eol);
    ChunkingIndependence("", chunks);
    assert "" + Flatten(chunks) == Flatten(chunks);
    assert Init(printed + [""]) == printed;
    assert TrimAll(printed) == printed;
    ItemsParse(items);
    DeliverIsReceive(STARTED, chunks);
  }
}
