/**
 The structured events of the OpenVPN management stream (`VpnManager` in src/utils/openvpn.ts).

 The parser is either idle or inside a client block. A block collects ENV lines; any other line
 closes it, and unless that line is the end marker the idle handler sees it next.
 */
module Management {
  import opened Sequences
  import opened Text

  const LOG := ">LOG:"
  const CLIENT := ">CLIENT:"
  const ENV := ">CLIENT:ENV"
  const END := ">CLIENT:ENV,END"
  const COUNT := ">BYTECOUNT_CLI:"

  datatype Kind = Established | Connect | Address | Disconnect

  function KindText(k: Kind): (s: string) {
    match k
    case Established => "ESTABLISHED"
    case Connect => "CONNECT"
    case Address => "ADDRESS"
    case Disconnect => "DISCONNECT"
  }

  /** The object passed to the listeners; a value is undefined when the line had no `=`. */
  type Env = map<string, Option<string>>

  datatype Block = Block(kind: Kind, id: Option<int>, args: seq<string>, env: Env)

  datatype Mode = Idle | Open(block: Block)

  datatype Output =
    | Log(level: Option<string>, message: string)
    | Count(id: Option<int>, received: Option<int>, sent: Option<int>)
    | Client(block: Block)

  /** `handled` lists the lines that reached the idle handler. */
  datatype Result = Result(mode: Mode, outs: seq<Output>, handled: seq<string>)

  // ---------------------------------------------------------------------------------------
  // The handlers
  // ---------------------------------------------------------------------------------------

  /** VpnLogLevels; an empty or missing level is a notice. */
  function Level(code: string): (name: Option<string>) {
    match code
    case "D" => Some("debug")
    case "I" => Some("info")
    case "n" => Some("notice")
    case "W" => Some("warning")
    case "N" => Some("error")
    case "F" => Some("emerg")
    case "" => Some("notice")
    case _ => None
  }

  function Field(fields: seq<string>, i: nat): (s: string) {
    if i < |fields| then fields[i] else ""
  }

  /** The first of the four event names that the text starts with. */
  function HeaderKind(text: string): (k: Option<Kind>) {
    if KindText(Established) <= text then Some(Established)
    else if KindText(Connect) <= text then Some(Connect)
    else if KindText(Address) <= text then Some(Address)
    else if KindText(Disconnect) <= text then Some(Disconnect)
    else None
  }

  /** A line that opens a block when the parser is idle. */
  predicate IsHeader(line: string) {
    !(LOG <= line) && CLIENT <= line && HeaderKind(line[|CLIENT|..]).Some?
  }

  function OpenBlock(line: string): (b: Block)
    requires IsHeader(line)
  {
    var text := line[|CLIENT|..];
    var kind := HeaderKind(text).value;
    var fields := Split(From(text, |KindText(kind)| + 1), ',');
    Block(kind, ParseInt(fields[0]), fields[1..], map[])
  }

  /** What a line that opens no block leads to. */
  function PlainOutputs(line: string): (outs: seq<Output>) {
    if LOG <= line then
      var fields := Split(line[|LOG|..], ',');
      [Log(Level(Field(fields, 1)), Join(if |fields| > 2 then fields[2..] else [], ','))]
    else if COUNT <= line then
      var fields := Split(line[|COUNT|..], ',');
      [Count(ParseInt(fields[0]), ParseInt(Field(fields, 1)), ParseInt(Field(fields, 2)))]
    else []
  }

  /** `dataHandler` */
  function IdleStep(line: string): (r: Result) {
    if IsHeader(line) then Result(Open(OpenBlock(line)), [], [line])
    else Result(Idle, PlainOutputs(line), [line])
  }

  predicate IsEnv(line: string) {
    ENV <= line && line != END
  }

  function AddEnv(env: Env, line: string): (r: Env) {
    var parts := Split(From(line, |ENV| + 1), '=');
    env[parts[0] := if |parts| > 1 then Some(parts[1]) else None]
  }

  /** The closure made by `clientEventEmitterFactory`. */
  function BlockStep(b: Block, line: string): (r: Result) {
    if IsEnv(line) then Result(Open(b.(env := AddEnv(b.env, line))), [], [])
    else if line == END then Result(Idle, [Client(b)], [])
    else Then(Result(Idle, [Client(b)], []), IdleStep(line))
  }

  function Step(mode: Mode, line: string): (r: Result) {
    match mode
    case Idle => IdleStep(line)
    case Open(b) => BlockStep(b, line)
  }

  /** One result after the other. */
  function Then(a: Result, b: Result): (r: Result) {
    Result(b.mode, a.outs + b.outs, a.handled + b.handled)
  }

  lemma ThenAssociative(a: Result, b: Result, c: Result)
    ensures Then(Then(a, b), c) == Then(a, Then(b, c))
  {
    assert a.outs + b.outs + c.outs == a.outs + (b.outs + c.outs);
    assert a.handled + b.handled + c.handled == a.handled + (b.handled + c.handled);
  }

  lemma ThenNothing(mode: Mode, r: Result)
    ensures Then(Result(mode, [], []), r) == r
  {
  }

  function Feed(mode: Mode, lines: seq<string>): (r: Result)
    decreases |lines|
  {
    if lines == [] then Result(mode, [], [])
    else Then(Step(mode, lines[0]), Feed(Step(mode, lines[0]).mode, lines[1..]))
  }

  lemma {:induction false} FeedAppend(mode: Mode, a: seq<string>, b: seq<string>)
    ensures Feed(mode, a + b) == Then(Feed(mode, a), Feed(Feed(mode, a).mode, b))
    decreases |a|
  {
    if a == [] {
      assert a + b == b;
      ThenNothing(mode, Feed(mode, b));
    } else {
      assert (a + b)[1..] == a[1..] + b;
      var first := Step(mode, a[0]);
      FeedAppend(first.mode, a[1..], b);
      var x := Feed(first.mode, a[1..]);
      ThenAssociative(first, x, Feed(x.mode, b));
    }
  }

  // ---------------------------------------------------------------------------------------
  // Block segmentation
  // ---------------------------------------------------------------------------------------

  /** A line on its own, a block that was closed (by the end marker or by the line after it), a block at the end. */
  datatype Segment =
    | Plain(line: string)
    | Closed(header: string, envs: seq<string>, ended: bool)
    | Unclosed(header: string, envs: seq<string>)

  /** The number of ENV lines at the front. */
  function EnvRun(lines: seq<string>): (n: nat)
    ensures n <= |lines|
    ensures forall i :: 0 <= i < n ==> IsEnv(lines[i])
    ensures n < |lines| ==> !IsEnv(lines[n])
  {
    if lines == [] || !IsEnv(lines[0]) then 0 else 1 + EnvRun(lines[1..])
  }

  /** The segment at the front: a header takes the ENV lines after it, and the end marker if that comes next. */
  function FirstSegment(lines: seq<string>): (s: Segment)
    requires lines != []
  {
    if !IsHeader(lines[0]) then Plain(lines[0]) else
      var rest := lines[1..];
      var n := EnvRun(rest);
      if n == |rest| then Unclosed(lines[0], rest)
      else Closed(lines[0], rest[..n], rest[n] == END)
  }

  function Segments(lines: seq<string>): (segments: seq<Segment>)
    decreases |lines|
  {
    if lines == [] then [] else
      var s := FirstSegment(lines);
      FirstSegmentIsPrefix(lines);
      [s] + Segments(lines[|SegmentLines(s)|..])
  }

  function SegmentLines(s: Segment): (lines: seq<string>) {
    match s
    case Plain(line) => [line]
    case Closed(header, envs, ended) => [header] + envs + if ended then [END] else []
    case Unclosed(header, envs) => [header] + envs
  }

  function LinesOf(segments: seq<Segment>): (lines: seq<string>) {
    if segments == [] then [] else SegmentLines(segments[0]) + LinesOf(segments[1..])
  }

  function AddEnvs(env: Env, envs: seq<string>): (r: Env)
    decreases |envs|
  {
    if envs == [] then env else AddEnvs(AddEnv(env, envs[0]), envs[1..])
  }

  function BlockOf(header: string, envs: seq<string>): (b: Block)
    requires IsHeader(header)
  {
    var b := OpenBlock(header);
    b.(env := AddEnvs(b.env, envs))
  }

  /** Block headers are headers; plain lines are not. */
  predicate Proper(s: Segment) {
    match s
    case Plain(line) => !IsHeader(line)
    case Closed(header, envs, _) => IsHeader(header) && forall i :: 0 <= i < |envs| ==> IsEnv(envs[i])
    case Unclosed(header, envs) => IsHeader(header) && forall i :: 0 <= i < |envs| ==> IsEnv(envs[i])
  }

  function SegmentResult(s: Segment): (r: Result)
    requires Proper(s)
  {
    match s
    case Plain(line) => Result(Idle, PlainOutputs(line), [line])
    case Closed(header, envs, _) => Result(Idle, [Client(BlockOf(header, envs))], [header])
    case Unclosed(header, envs) => Result(Open(BlockOf(header, envs)), [], [header])
  }

  /** What the segments mean, one after the other. */
  function Meaning(segments: seq<Segment>): (r: Result)
    requires forall i :: 0 <= i < |segments| ==> Proper(segments[i])
  {
    if segments == [] then Result(Idle, [], [])
    else if segments[0].Unclosed? then SegmentResult(segments[0])
    else Then(SegmentResult(segments[0]), Meaning(segments[1..]))
  }

  lemma FirstSegmentIsPrefix(lines: seq<string>)
    requires lines != []
    ensures var s := FirstSegment(lines);
            && 1 <= |SegmentLines(s)| <= |lines| && lines == SegmentLines(s) + lines[|SegmentLines(s)|..]
            && Proper(s)
            && (s.Unclosed? ==> |SegmentLines(s)| == |lines|)
            && (s.Closed? && !s.ended ==>
                  var n := |SegmentLines(s)|; n < |lines| && !IsEnv(lines[n]) && lines[n] != END)
  {
    hide IsHeader, IsEnv;
    var rest := lines[1..];
    var n := EnvRun(rest);
    if n < |rest| {
      assert rest == rest[..n] + [rest[n]] + rest[n + 1..];
    }
    assert lines == [lines[0]] + rest;
  }

  /** The segments cover the input: every line belongs to exactly one of them, in order. */
  lemma {:induction false} SegmentsCover(lines: seq<string>)
    ensures LinesOf(Segments(lines)) == lines
    ensures forall i :: 0 <= i < |Segments(lines)| ==> Proper(Segments(lines)[i])
    ensures forall i :: 0 <= i < |Segments(lines)| - 1 ==> !Segments(lines)[i].Unclosed?
    decreases |lines|
  {
    if lines != [] {
      var s := FirstSegment(lines);
      FirstSegmentIsPrefix(lines);
      var after := lines[|SegmentLines(s)|..];
      SegmentsCover(after);
      assert Segments(lines)[1..] == Segments(after);
    }
  }

  lemma {:induction false} AbsorbRun(b: Block, envs: seq<string>)
    requires forall i :: 0 <= i < |envs| ==> IsEnv(envs[i])
    ensures Feed(Open(b), envs) == Result(Open(b.(env := AddEnvs(b.env, envs))), [], [])
    decreases |envs|
  {
    if envs != [] {
      AbsorbRun(b.(env := AddEnv(b.env, envs[0])), envs[1..]);
    }
  }

  lemma FeedBlock(header: string, envs: seq<string>, rest: seq<string>)
    requires IsHeader(header) && forall i :: 0 <= i < |envs| ==> IsEnv(envs[i])
    ensures Feed(Idle, [header] + envs + rest)
            == Then(Result(Idle, [], [header]), Feed(Open(BlockOf(header, envs)), rest))
  {
    var b := OpenBlock(header);
    var lines := [header] + envs + rest;
    assert lines[1..] == envs + rest;
    AbsorbRun(b, envs);
    FeedAppend(Open(b), envs, rest);
    ThenNothing(Open(BlockOf(header, envs)), Feed(Open(BlockOf(header, envs)), rest));
  }

  /** A line that is not an ENV line closes the block first and is then treated as if the parser had been idle. */
  lemma CloseThenIdle(b: Block, line: string, rest: seq<string>)
    requires !IsEnv(line)
    ensures Feed(Open(b), [line] + rest)
            == Then(Result(Idle, [Client(b)], []), Feed(Idle, if line == END then rest else [line] + rest))
  {
    assert ([line] + rest)[1..] == rest;
    if line != END {
      var idle := IdleStep(line);
      assert Step(Open(b), line) == Then(Result(Idle, [Client(b)], []), idle);
      ThenAssociative(Result(Idle, [Client(b)], []), idle, Feed(idle.mode, rest));
    }
  }

  lemma ThenEmits(header: string, b: Block)
    ensures Then(Result(Idle, [], [header]), Result(Idle, [Client(b)], [])) == Result(Idle, [Client(b)], [header])
  {
  }

  lemma FeedEnded(header: string, envs: seq<string>, after: seq<string>)
    requires IsHeader(header) && forall i :: 0 <= i < |envs| ==> IsEnv(envs[i])
    ensures Feed(Idle, [header] + envs + [END] + after)
            == Then(Result(Idle, [Client(BlockOf(header, envs))], [header]), Feed(Idle, after))
  {
    assert !IsEnv(END);
    hide Feed, BlockOf, IsHeader, IsEnv, END, Then;
    var b := BlockOf(header, envs);
    ConcatAssociative([header] + envs, [END], after);
    FeedBlock(header, envs, [END] + after);
    CloseThenIdle(b, END, after);
    ThenAssociative(Result(Idle, [], [header]), Result(Idle, [Client(b)], []), Feed(Idle, after));
    ThenEmits(header, b);
  }

  /** A block cut short by another line is still emitted, before that line is handled. */
  lemma FeedCutShort(header: string, envs: seq<string>, after: seq<string>)
    requires IsHeader(header) && forall i :: 0 <= i < |envs| ==> IsEnv(envs[i])
    requires after != [] && !IsEnv(after[0]) && after[0] != END
    ensures Feed(Idle, [header] + envs + after)
            == Then(Result(Idle, [Client(BlockOf(header, envs))], [header]), Feed(Idle, after))
  {
    hide Feed, BlockOf, IsHeader, IsEnv, Then;
    var b := BlockOf(header, envs);
    FeedBlock(header, envs, after);
    assert after == [after[0]] + after[1..];
    CloseThenIdle(b, after[0], after[1..]);
    ThenAssociative(Result(Idle, [], [header]), Result(Idle, [Client(b)], []), Feed(Idle, after));
    ThenEmits(header, b);
  }

  lemma FeedSegment(s: Segment, after: seq<string>)
    requires Proper(s)
    requires s.Unclosed? ==> after == []
    requires s.Closed? && !s.ended ==> after != [] && !IsEnv(after[0]) && after[0] != END
    ensures Feed(Idle, SegmentLines(s) + after)
            == if s.Unclosed? then SegmentResult(s) else Then(SegmentResult(s), Feed(Idle, after))
  {
    match s
    case Plain(line) =>
      assert ([line] + after)[1..] == after;
    case Unclosed(header, envs) =>
      FeedBlock(header, envs, []);
    case Closed(header, envs, ended) =>
      if ended {
        FeedEnded(header, envs, after);
      } else {
        assert SegmentLines(s) == [header] + envs;
        FeedCutShort(header, envs, after);
      }
  }

  /** The handler-swapping parser computes the meaning of the block segmentation, for every input. */
  lemma {:induction false} ParserRefinesSegments(lines: seq<string>)
    ensures forall i :: 0 <= i < |Segments(lines)| ==> Proper(Segments(lines)[i])
    ensures Feed(Idle, lines) == Meaning(Segments(lines))
    decreases |lines|
  {
    SegmentsCover(lines);
    if lines != [] {
      var s := FirstSegment(lines);
      FirstSegmentIsPrefix(lines);
      var after := lines[|SegmentLines(s)|..];
      FeedSegment(s, after);
      ParserRefinesSegments(after);
      assert Segments(lines)[1..] == Segments(after);
    }
  }
}
