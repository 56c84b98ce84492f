/**
 The line buffer of the management connection (src/utils/openvpn.ts): every chunk is appended to
 the leftover of the previous one and cut with the regular expression `\r?\n`.
 */
module LineSplitter {
  import opened Sequences

  /** A match of `\r?\n` starts at `i`. */
  predicate BreakAt(s: string, i: nat) {
    i < |s| && (s[i] == '\n' || (s[i] == '\r' && i + 1 < |s| && s[i + 1] == '\n'))
  }

  /** Where the leftmost match at or after `k` starts, or the length. */
  function FindBreak(s: string, k: nat): (i: nat)
    requires k <= |s|
    ensures k <= i <= |s| && (i < |s| ==> BreakAt(s, i))
    ensures forall j :: k <= j < i ==> !BreakAt(s, j)
    decreases |s| - k
  {
    if k == |s| || BreakAt(s, k) then k else FindBreak(s, k + 1)
  }

  function BreakEnd(s: string, i: nat): (j: nat)
    requires BreakAt(s, i)
    ensures i < j <= |s|
  {
    if s[i] == '\r' then i + 2 else i + 1
  }

  /** `s.split(/\r?\n/)` */
  function SplitLines(s: string): (lines: seq<string>)
    ensures |lines| >= 1
    decreases |s|
  {
    var i := FindBreak(s, 0);
    if i == |s| then [s] else [s[..i]] + SplitLines(s[BreakEnd(s, i)..])
  }

  function Init<T>(s: seq<T>): (r: seq<T>)
    requires s != []
  {
    s[..|s| - 1]
  }

  function Last<T>(s: seq<T>): (x: T)
    requires s != []
  {
    s[|s| - 1]
  }

  /** The lines emitted and the buffer left after a sequence of chunks. */
  function Receive(buf: string, chunks: seq<string>): (r: (seq<string>, string))
    decreases |chunks|
  {
    if chunks == [] then ([], buf) else
      var parts := SplitLines(buf + chunks[0]);
      var rest := Receive(Last(parts), chunks[1..]);
      (Init(parts) + rest.0, rest.1)
  }

  lemma BreakIsFirst(a: string, b: string)
    requires FindBreak(a, 0) < |a|
    ensures FindBreak(a + b, 0) == FindBreak(a, 0)
    ensures BreakEnd(a + b, FindBreak(a, 0)) == BreakEnd(a, FindBreak(a, 0))
  {
    var i, s := FindBreak(a, 0), a + b;
    assert BreakAt(s, i);
    forall j | 0 <= j < i ensures !BreakAt(s, j) {
      assert !BreakAt(a, j);
    }
  }

  lemma FirstLineOfAppend(a: string, b: string)
    requires FindBreak(a, 0) < |a|
    ensures var i := FindBreak(a, 0);
            SplitLines(a + b) == [a[..i]] + SplitLines(a[BreakEnd(a, i)..] + b)
  {
    BreakIsFirst(a, b);
    var i, s := FindBreak(a, 0), a + b;
    assert s[BreakEnd(a, i)..] == a[BreakEnd(a, i)..] + b && s[..i] == a[..i];
  }

  lemma InitLastCons<T>(x: T, s: seq<T>)
    requires s != []
    ensures Init([x] + s) == [x] + Init(s) && Last([x] + s) == Last(s)
  {
  }

  /** Text that follows can be split together with the leftover, wherever the cut fell. */
  lemma {:induction false} SplitAppend(a: string, b: string)
    ensures SplitLines(a + b) == Init(SplitLines(a)) + SplitLines(Last(SplitLines(a)) + b)
    decreases |a|
  {
    var i := FindBreak(a, 0);
    if i == |a| {
      assert Init(SplitLines(a)) == [];
      return;
    }
    var rest := a[BreakEnd(a, i)..];
    assert SplitLines(a) == [a[..i]] + SplitLines(rest);
    hide SplitLines, Init, Last;
    FirstLineOfAppend(a, b);
    SplitAppend(rest, b);
    var tail := SplitLines(rest);
    InitLastCons(a[..i], tail);
    ConcatAssociative([a[..i]], Init(tail), SplitLines(Last(tail) + b));
  }

  /** A leftover contains no further break. */
  lemma {:induction false} LeftoverIsWhole(s: string)
    ensures SplitLines(Last(SplitLines(s))) == [Last(SplitLines(s))]
    decreases |s|
  {
    var i := FindBreak(s, 0);
    if i < |s| {
      LeftoverIsWhole(s[BreakEnd(s, i)..]);
      assert SplitLines(s) == [s[..i]] + SplitLines(s[BreakEnd(s, i)..]);
    }
  }

  /**
   The lines and the leftover depend on the stream only, not on how it was cut into chunks. The
   buffer is always a leftover, that is, it holds no complete line.
   */
  lemma {:induction false} ChunkingIndependence(buf: string, chunks: seq<string>)
    requires SplitLines(buf) == [buf]
    ensures var all := SplitLines(buf + Flatten(chunks));
            Receive(buf, chunks) == (Init(all), Last(all))
    decreases |chunks|
  {
    if chunks == [] {
      assert buf + Flatten(chunks) == buf;
    } else {
      var first, rest := buf + chunks[0], Flatten(chunks[1..]);
      var parts := SplitLines(first);
      assert buf + Flatten(chunks) == first + rest;
      SplitAppend(first, rest);
      LeftoverIsWhole(first);
      ChunkingIndependence(Last(parts), chunks[1..]);
      var tail := SplitLines(Last(parts) + rest);
      assert Init(Init(parts) + tail) == Init(parts) + Init(tail);
    }
  }

  lemma SameStreamSameLines(xs: seq<string>, ys: seq<string>)
    requires Flatten(xs) == Flatten(ys)
    ensures Receive("", xs) == Receive("", ys)
  {
    ChunkingIndependence("", xs);
    ChunkingIndependence("", ys);
  }

  // ---------------------------------------------------------------------------------------
  // Printing lines
  // ---------------------------------------------------------------------------------------

  predicate IsEol(eol: string) {
    eol == "\n" || eol == "\r\n"
  }

  /** A line that survives being terminated and cut again. */
  predicate OneLine(line: string) {
    '\n' !in line && (line != "" ==> line[|line| - 1] != '\r')
  }

  function PrintLines(lines: seq<string>, eol: string): (s: string) {
    if lines == [] then "" else lines[0] + eol + PrintLines(lines[1..], eol)
  }

  /** A line end that is not longer than it looks. */
  predicate Terminates(line: string, eol: string) {
    IsEol(eol) && '\n' !in line && (eol == "\n" && line != "" ==> line[|line| - 1] != '\r')
  }

  lemma SplitFirst(line: string, eol: string, rest: string)
    requires Terminates(line, eol)
    ensures SplitLines(line + eol + rest) == [line] + SplitLines(rest)
  {
    var s, i := line + eol + rest, |line|;
    assert s[i..] == eol + rest && s[..i] == line;
    assert BreakAt(s, i);
    forall j | 0 <= j < i ensures !BreakAt(s, j) {
      assert s[j] == line[j];
      assert j + 1 < i ==> s[j + 1] == line[j + 1];
      assert j + 1 == i ==> s[j + 1] == eol[0];
    }
    assert FindBreak(s, 0) == i;
    assert s[BreakEnd(s, i)..] == rest;
  }

  /** Lines with the ends between them, which may differ; the last line has none. */
  function Rejoin(lines: seq<string>, ends: seq<string>): (s: string)
    requires |lines| == |ends| + 1
  {
    if ends == [] then lines[0] else lines[0] + ends[0] + Rejoin(lines[1..], ends[1..])
  }

  ghost predicate Cuts(lines: seq<string>, ends: seq<string>) {
    && |lines| == |ends| + 1 && '\n' !in lines[|ends|]
    && forall k :: 0 <= k < |ends| ==> Terminates(lines[k], ends[k])
  }

  lemma WholeLine(s: string)
    requires '\n' !in s
    ensures SplitLines(s) == [s]
  {
    assert FindBreak(s, 0) == |s|;
  }

  /** There is one way to read a text as lines with ends between them, and the cut finds it. */
  lemma {:induction false} SplitFindsCut(lines: seq<string>, ends: seq<string>)
    requires Cuts(lines, ends)
    ensures SplitLines(Rejoin(lines, ends)) == lines
    decreases |ends|
  {
    if ends == [] {
      WholeLine(lines[0]);
      return;
    }
    hide SplitLines, Terminates;
    SplitFindsCut(lines[1..], ends[1..]);
    SplitFirst(lines[0], ends[0], Rejoin(lines[1..], ends[1..]));
  }

  lemma {:induction false} SplitIsCut(s: string) returns (ends: seq<string>)
    ensures Cuts(SplitLines(s), ends) && Rejoin(SplitLines(s), ends) == s
    decreases |s|
  {
    var i := FindBreak(s, 0);
    if i == |s| {
      NoBreaks(s, i);
      ends := [];
      assert s[..i] == s;
      return;
    }
    var j := BreakEnd(s, i);
    var tail := SplitIsCut(s[j..]);
    var line, eol, lines := s[..i], s[i..j], SplitLines(s[j..]);
    ends := [eol] + tail;
    assert Terminates(line, eol) by { FirstBreak(s); }
    assert SplitLines(s) == [line] + lines;
    hide SplitLines, Terminates;
    assert ([line] + lines)[1..] == lines && ends[1..] == tail;
    assert s == line + eol + s[j..];
  }

  lemma NoBreaks(s: string, i: nat)
    requires i <= |s| && forall k :: 0 <= k < i ==> !BreakAt(s, k)
    ensures '\n' !in s[..i]
    ensures BreakAt(s, i) && s[i] == '\n' && i > 0 ==> s[i - 1] != '\r'
  {
    forall k | 0 <= k < i ensures s[k] != '\n' {
      assert !BreakAt(s, k);
    }
    if i > 0 {
      assert !BreakAt(s, i - 1);
    }
  }

  lemma FirstBreak(s: string)
    requires FindBreak(s, 0) < |s|
    ensures var i := FindBreak(s, 0); Terminates(s[..i], s[i..BreakEnd(s, i)])
  {
    var i := FindBreak(s, 0);
    NoBreaks(s, i);
    EolText(s, i);
    hide FindBreak;
  }

  lemma EolText(s: string, i: nat)
    requires BreakAt(s, i)
    ensures s[i..BreakEnd(s, i)] == if s[i] == '\n' then "\n" else "\r\n"
  {
  }

  /** Cutting what was printed gives the lines back and leaves an empty buffer. */
  lemma {:induction false} SplitPrinted(lines: seq<string>, eol: string)
    requires IsEol(eol) && forall k :: 0 <= k < |lines| ==> OneLine(lines[k])
    ensures SplitLines(PrintLines(lines, eol)) == lines + [""]
  {
    if lines == [] {
      return;
    }
    assert Terminates(lines[0], eol);
    hide SplitLines, OneLine, Terminates;
    SplitPrinted(lines[1..], eol);
    SplitFirst(lines[0], eol, PrintLines(lines[1..], eol));
    ConcatAssociative([lines[0]], lines[1..], [""]);
    assert lines == [lines[0]] + lines[1..];
  }
}
