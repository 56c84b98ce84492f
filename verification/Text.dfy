/** The string operations of the source: slicing, splitting on a character, trimming, decimal numbers. */
module Text {
  import opened Sequences

  /** `s.slice(n)` */
  function From(s: string, n: nat): (r: string) {
    if n <= |s| then s[n..] else ""
  }

  /** The first position of `c`, or the length. */
  function IndexOf(s: string, c: char): (i: nat)
    ensures i <= |s| && c !in s[..i] && (i < |s| ==> s[i] == c)
  {
    if s == "" || s[0] == c then 0 else
      var i := 1 + IndexOf(s[1..], c);
      assert s[..i] == [s[0]] + s[1..][..i - 1];
      i
  }

  lemma IndexOfAppend(a: string, c: char, b: string)
    requires c !in a
    ensures IndexOf(a + [c] + b, c) == |a|
  {
    var s := a + [c] + b;
    var i := IndexOf(s, c);
    assert s[|a|] == c;
    assert forall k :: 0 <= k < |a| ==> s[k] == a[k];
  }

  /** `s.split(c)` */
  function Split(s: string, c: char): (parts: seq<string>)
    ensures |parts| >= 1
    ensures forall k :: 0 <= k < |parts| ==> c !in parts[k]
    decreases |s|
  {
    var i := IndexOf(s, c);
    if i == |s| then assert s[..i] == s; [s] else [s[..i]] + Split(s[i + 1..], c)
  }

  /** `parts.join(c)` */
  function Join(parts: seq<string>, c: char): (s: string) {
    if parts == [] then "" else if |parts| == 1 then parts[0] else parts[0] + [c] + Join(parts[1..], c)
  }

  lemma JoinCons(a: string, parts: seq<string>, c: char)
    requires parts != []
    ensures Join([a] + parts, c) == a + [c] + Join(parts, c)
  {
    assert ([a] + parts)[1..] == parts;
  }

  lemma {:induction false} JoinSplit(s: string, c: char)
    ensures Join(Split(s, c), c) == s
    decreases |s|
  {
    var i := IndexOf(s, c);
    if i == |s| {
      return;
    }
    var rest := Split(s[i + 1..], c);
    JoinCons(s[..i], rest, c);
    assert Split(s, c) == [s[..i]] + rest;
    hide Join, Split, IndexOf;
    JoinSplit(s[i + 1..], c);
    assert s == s[..i] + [c] + s[i + 1..];
  }

  lemma SplitCons(a: string, c: char, b: string)
    requires c !in a
    ensures Split(a + [c] + b, c) == [a] + Split(b, c)
  {
    IndexOfAppend(a, c, b);
    assert (a + [c] + b)[|a| + 1..] == b && (a + [c] + b)[..|a|] == a;
  }

  lemma SplitNone(a: string, c: char)
    requires c !in a
    ensures Split(a, c) == [a]
  {
  }

  lemma {:induction false} SplitJoin(parts: seq<string>, c: char)
    requires parts != [] && forall k :: 0 <= k < |parts| ==> c !in parts[k]
    ensures Split(Join(parts, c), c) == parts
  {
    if |parts| == 1 {
      SplitNone(parts[0], c);
    } else {
      SplitJoin(parts[1..], c);
      SplitCons(parts[0], c, Join(parts[1..], c));
    }
  }

  // ---------------------------------------------------------------------------------------
  // Trimming
  // ---------------------------------------------------------------------------------------

  /** White space and line terminators of ECMAScript. */
  predicate IsSpace(c: char) {
    || '\t' <= c <= '\r' || c == ' ' || c == '\U{00A0}' || c == '\U{FEFF}' || c == '\U{1680}'
    || '\U{2000}' <= c <= '\U{200A}' || c == '\U{2028}' || c == '\U{2029}'
    || c == '\U{202F}' || c == '\U{205F}' || c == '\U{3000}'
  }

  /** The code points of those characters. */
  lemma SpaceCodes(c: char)
    ensures IsSpace(c) <==>
              || c as int in {9, 10, 11, 12, 13, 32, 0xA0, 0x1680, 0x2028, 0x2029, 0x202F, 0x205F, 0x3000, 0xFEFF}
              || 0x2000 <= c as int <= 0x200A
  {
  }

  function TrimStart(s: string): (r: string) {
    if s != "" && IsSpace(s[0]) then TrimStart(s[1..]) else s
  }

  function TrimEnd(s: string): (r: string) {
    if s != "" && IsSpace(s[|s| - 1]) then TrimEnd(s[..|s| - 1]) else s
  }

  /** `s.trim()` */
  function Trim(s: string): (r: string) {
    TrimEnd(TrimStart(s))
  }

  lemma {:induction false} TrimStartExact(s: string) returns (i: nat)
    ensures i <= |s| && TrimStart(s) == s[i..] && (i < |s| ==> !IsSpace(s[i]))
    ensures forall k :: 0 <= k < i ==> IsSpace(s[k])
  {
    i := 0;
    if s != "" && IsSpace(s[0]) {
      var j := TrimStartExact(s[1..]);
      i := j + 1;
      forall k | 0 <= k < i ensures IsSpace(s[k]) {
        if k > 0 { assert s[1..][k - 1] == s[k]; }
      }
    }
  }

  lemma {:induction false} TrimEndExact(s: string) returns (j: nat)
    ensures j <= |s| && TrimEnd(s) == s[..j] && (j > 0 ==> !IsSpace(s[j - 1]))
    ensures forall k :: j <= k < |s| ==> IsSpace(s[k])
  {
    j := |s|;
    if s != "" && IsSpace(s[|s| - 1]) {
      j := TrimEndExact(s[..|s| - 1]);
    }
  }

  /** Trimming removes exactly the white space before the first and after the last other character. */
  lemma TrimExact(s: string) returns (i: nat, j: nat)
    ensures i <= j <= |s| && Trim(s) == s[i..j]
    ensures forall k :: 0 <= k < i || j <= k < |s| ==> IsSpace(s[k])
    ensures i < j ==> !IsSpace(s[i]) && !IsSpace(s[j - 1])
  {
    i := TrimStartExact(s);
    var n := TrimEndExact(s[i..]);
    j := i + n;
    assert s[i..][..n] == s[i..j];
    forall k | j <= k < |s| ensures IsSpace(s[k]) {
      assert s[i..][k - i] == s[k];
    }
  }

  // ---------------------------------------------------------------------------------------
  // Decimal numbers
  // ---------------------------------------------------------------------------------------

  predicate IsDigit(c: char) {
    '0' <= c <= '9'
  }

  lemma DigitLiteral(c: char)
    ensures IsDigit(c) <==> c in "0123456789"
  {
    if IsDigit(c) {
      assert "0123456789"[c as int - '0' as int] == c;
    }
  }

  function Digits(n: nat): (s: string)
    ensures s != "" && forall k :: 0 <= k < |s| ==> IsDigit(s[k])
  {
    (if n < 10 then "" else Digits(n / 10)) + [(n % 10 + '0' as int) as char]
  }

  /** The number written by a string of digits. */
  function Value(s: string): (n: nat)
    requires forall k :: 0 <= k < |s| ==> IsDigit(s[k])
  {
    if s == "" then 0 else
      assert IsDigit(s[|s| - 1]);
      10 * Value(s[..|s| - 1]) + (s[|s| - 1] as int - '0' as int)
  }

  lemma {:induction false} ValueOfDigits(n: nat)
    ensures Value(Digits(n)) == n
  {
    var s := Digits(n);
    if n < 10 {
      assert s[..|s| - 1] == "";
    } else {
      ValueOfDigits(n / 10);
      assert s[..|s| - 1] == Digits(n / 10);
    }
  }

  /** The longest prefix of digits. */
  function DigitPrefix(s: string): (r: string)
    ensures r <= s && forall k :: 0 <= k < |r| ==> IsDigit(r[k])
    ensures |r| < |s| ==> !IsDigit(s[|r|])
  {
    if s == "" || !IsDigit(s[0]) then "" else [s[0]] + DigitPrefix(s[1..])
  }

  lemma DigitPrefixAll(s: string)
    requires forall k :: 0 <= k < |s| ==> IsDigit(s[k])
    ensures DigitPrefix(s) == s
  {
    var r := DigitPrefix(s);
    assert |r| == |s|;
  }

  /** `parseInt(s, 10)`, with None for NaN. */
  function ParseInt(s: string): (r: Option<int>) {
    var t := TrimStart(s);
    var signed := t != "" && (t[0] == '-' || t[0] == '+');
    var digits := DigitPrefix(if signed then t[1..] else t);
    if digits == "" then None
    else Some(if signed && t[0] == '-' then 0 - Value(digits) else Value(digits))
  }

  lemma DigitIsPlain(c: char)
    requires IsDigit(c)
    ensures !IsSpace(c) && c != '-' && c != '+'
  {
  }

  /** On a non-empty string of digits `parseInt` gives the number it writes. */
  lemma ParseAllDigits(s: string)
    requires s != "" && forall k :: 0 <= k < |s| ==> IsDigit(s[k])
    ensures ParseInt(s) == Some(Value(s))
  {
    hide IsDigit, IsSpace, DigitPrefix, Value;
    DigitIsPlain(s[0]);
    assert TrimStart(s) == s;
    DigitPrefixAll(s);
  }

  /** Printing and parsing a number are inverse. */
  lemma ParseDigits(n: nat)
    ensures ParseInt(Digits(n)) == Some(n)
  {
    ParseAllDigits(Digits(n));
    ValueOfDigits(n);
  }

  predicate IsSign(s: string) {
    s == "" || s == "-" || s == "+"
  }

  /** White space, an optional sign and digits, followed by something that is no digit. */
  ghost predicate Numeral(s: string, space: string, sign: string, digits: string, rest: string) {
    && s == space + sign + digits + rest
    && (forall k :: 0 <= k < |space| ==> IsSpace(space[k])) && IsSign(sign)
    && digits != "" && (forall k :: 0 <= k < |digits| ==> IsDigit(digits[k])) && (rest != "" ==> !IsDigit(rest[0]))
  }

  lemma {:induction false} TrimStartOf(space: string, t: string)
    requires (forall k :: 0 <= k < |space| ==> IsSpace(space[k])) && (t != "" ==> !IsSpace(t[0]))
    ensures TrimStart(space + t) == t
  {
    if space == "" {
      assert space + t == t;
    } else {
      assert (space + t)[1..] == space[1..] + t;
      TrimStartOf(space[1..], t);
    }
  }

  lemma DigitPrefixOf(digits: string, rest: string)
    requires (forall k :: 0 <= k < |digits| ==> IsDigit(digits[k])) && (rest != "" ==> !IsDigit(rest[0]))
    ensures DigitPrefix(digits + rest) == digits
  {
    var s, r := digits + rest, DigitPrefix(digits + rest);
    assert forall k :: 0 <= k < |digits| ==> s[k] == digits[k];
    assert rest != "" ==> s[|digits|] == rest[0];
    assert |r| == |digits|;
  }

  lemma SignedText(sign: string, digits: string, rest: string)
    requires IsSign(sign) && digits != "" && IsDigit(digits[0])
    ensures var t := sign + (digits + rest);
            && t != "" && !IsSpace(t[0]) && (sign == "" <==> t[0] != '-' && t[0] != '+')
            && (sign != "" ==> t[0] == sign[0]) && t[|sign|..] == digits + rest
  {
    DigitIsPlain(digits[0]);
  }

  /** `parseInt` reads the number at the front, whatever follows it. */
  lemma ParseNumeral(s: string, space: string, sign: string, digits: string, rest: string)
    requires Numeral(s, space, sign, digits, rest)
    ensures ParseInt(s) == Some(if sign == "-" then 0 - Value(digits) else Value(digits))
  {
    hide IsDigit, IsSpace, Value, DigitPrefix, TrimStart;
    var t := sign + (digits + rest);
    assert s == space + t;
    SignedText(sign, digits, rest);
    TrimStartOf(space, t);
    DigitPrefixOf(digits, rest);
    hide Numeral;
    assert t[0..] == t;
  }

  /** What is left of a text after its sign. */
  lemma SignSplits(t: string) returns (n: nat)
    requires t != ""
    ensures n <= 1 && n <= |t| && IsSign(t[..n]) && t == t[..n] + t[n..]
    ensures n == 1 <==> t[0] == '-' || t[0] == '+'
  {
    n := if t[0] == '-' || t[0] == '+' then 1 else 0;
    assert t[..n] == if n == 0 then "" else [t[0]];
  }

  /** `parseInt` gives a number exactly for the strings that begin with one. */
  lemma ParseIntIff(s: string)
    ensures ParseInt(s).Some? <==> exists space, sign, digits, rest :: Numeral(s, space, sign, digits, rest)
  {
    if ParseInt(s).Some? {
      ParsedIsNumeral(s);
    }
    hide ParseInt;
    if space, sign, digits, rest :| Numeral(s, space, sign, digits, rest) {
      ParseNumeral(s, space, sign, digits, rest);
    }
  }

  lemma ParsedIsNumeral(s: string)
    requires ParseInt(s).Some?
    ensures exists space, sign, digits, rest :: Numeral(s, space, sign, digits, rest)
  {
    hide IsDigit, IsSpace, Value, DigitPrefix, TrimStart, ParseInt, IsSign;
    var i := TrimStartExact(s);
    var t := s[i..];
    ParsedHasDigits(s, t);
    var n := SignSplits(t);
    assert s == s[..i] + t;
    NumeralOf(s[..i], t[..n], t[n..]);
  }

  lemma NumeralOf(space: string, sign: string, t: string)
    requires (forall k :: 0 <= k < |space| ==> IsSpace(space[k])) && IsSign(sign) && DigitPrefix(t) != ""
    ensures exists a, b, c, d :: Numeral(space + (sign + t), a, b, c, d)
  {
    hide IsDigit, IsSpace, IsSign, DigitPrefix;
    var digits := DigitPrefix(t);
    var rest := t[|digits|..];
    assert t == digits + rest;
    Regroup(space, sign, digits, rest);
    assert Numeral(space + (sign + t), space, sign, digits, rest);
  }

  lemma Regroup(a: string, b: string, c: string, d: string)
    ensures a + (b + (c + d)) == a + b + c + d
  {
  }

  lemma ParsedHasDigits(s: string, t: string)
    requires TrimStart(s) == t && ParseInt(s).Some?
    ensures t != "" && DigitPrefix(if t[0] == '-' || t[0] == '+' then t[1..] else t[0..]) != ""
  {
    assert t != "" ==> t[0..] == t;
  }

  lemma DigitsAvoid(n: nat, c: char)
    requires !IsDigit(c)
    ensures c !in Digits(n)
  {
  }
}
