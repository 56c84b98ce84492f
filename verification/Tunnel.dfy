/**
 Tunnel requests of src/proxy-worker.ts: the host name parser, the two places that print a target
 for another parser, and the decision to connect here or to forward to another service instance.
 */
module Tunnel {
  import opened Sequences
  import opened Text

  datatype Target = Target(uuid: string, port: nat)

  datatype Error = BadRequest | InvalidHostname
  datatype Result<+T> = Ok(value: T) | Err(error: Error)

  // ---------------------------------------------------------------------------------------
  // Parsing
  // ---------------------------------------------------------------------------------------

  predicate IsHex(c: char) {
    IsDigit(c) || 'a' <= c <= 'f' || 'A' <= c <= 'F'
  }

  predicate IsUuid(s: string) {
    s != "" && forall k :: 0 <= k < |s| ==> IsHex(s[k])
  }

  predicate IsNumber(s: string) {
    s != "" && forall k :: 0 <= k < |s| ==> IsDigit(s[k])
  }

  predicate IsTld(s: string) {
    s == "balena" || s == "resin" || s == "vpn"
  }

  /** The optional last group. */
  predicate PortOk(port: Option<string>) {
    port.Some? ==> IsNumber(port.value)
  }

  function PortSuffix(port: Option<string>): (s: string) {
    if port.Some? then ":" + port.value else ""
  }

  /** A non-empty string over the given characters. */
  predicate Over(s: string, alphabet: string) {
    s != "" && forall k :: 0 <= k < |s| ==> s[k] in alphabet
  }

  /** ^([a-fA-F0-9]+)\.(balena|resin|vpn)(?::([0-9]+))?$ with its three groups. */
  predicate Matches(url: string, uuid: string, tld: string, port: Option<string>) {
    && Over(uuid, "0123456789abcdefABCDEF") && tld in ["balena", "resin", "vpn"]
    && (port.Some? ==> Over(port.value, "0123456789"))
    && url == uuid + "." + tld + if port.Some? then ":" + port.value else ""
  }

  lemma HexLiteral(c: char)
    ensures IsHex(c) <==> c in "0123456789abcdefABCDEF"
  {
    var hex := "0123456789abcdefABCDEF";
    if IsDigit(c) {
      assert hex[c as int - '0' as int] == c;
    } else if 'a' <= c <= 'f' {
      assert hex[10 + c as int - 'a' as int] == c;
    } else if 'A' <= c <= 'F' {
      assert hex[16 + c as int - 'A' as int] == c;
    }
  }

  lemma OverLiterals(s: string)
    ensures IsUuid(s) <==> Over(s, "0123456789abcdefABCDEF")
    ensures IsNumber(s) <==> Over(s, "0123456789")
  {
    forall k | 0 <= k < |s|
      ensures (IsHex(s[k]) <==> s[k] in "0123456789abcdefABCDEF") && (IsDigit(s[k]) <==> s[k] in "0123456789")
    {
      HexLiteral(s[k]);
      DigitLiteral(s[k]);
    }
  }

  /** The groups as the parser's helpers see them. */
  lemma MatchesIff(url: string, uuid: string, tld: string, port: Option<string>)
    ensures Matches(url, uuid, tld, port) <==>
              IsUuid(uuid) && IsTld(tld) && PortOk(port) && url == uuid + "." + tld + PortSuffix(port)
  {
    OverLiterals(uuid);
    if port.Some? { OverLiterals(port.value); }
    hide IsUuid, IsNumber, Over;
  }

  function PortText(port: Option<string>): (s: string) {
    if port.Some? then port.value else "80"
  }

  function HexPrefix(s: string): (r: string)
    ensures r <= s && (forall k :: 0 <= k < |r| ==> IsHex(r[k])) && (|r| < |s| ==> !IsHex(s[|r|]))
  {
    if s == "" || !IsHex(s[0]) then "" else [s[0]] + HexPrefix(s[1..])
  }

  /** The text after the top-level domain. */
  function ParsePort(s: string): (r: Option<nat>) {
    if s == "" then Some(80)
    else if s[0] == ':' && IsNumber(s[1..]) then Some(Value(s[1..]))
    else None
  }

  function ParseTail(s: string): (r: Option<nat>) {
    if "balena" <= s then ParsePort(s[6..])
    else if "resin" <= s then ParsePort(s[5..])
    else if "vpn" <= s then ParsePort(s[3..])
    else None
  }

  /** `parseRequest` */
  function ParseRequest(url: Option<string>): (r: Result<Target>) {
    if url.None? then Err(BadRequest) else
      var uuid := HexPrefix(url.value);
      var rest := url.value[|uuid|..];
      if uuid == "" || rest == "" || rest[0] != '.' then Err(InvalidHostname)
      else match ParseTail(rest[1..])
        case None => Err(InvalidHostname)
        case Some(port) => Ok(Target(uuid, port))
  }

  lemma HexPrefixOf(uuid: string, rest: string)
    requires IsUuid(uuid) && (rest != "" ==> !IsHex(rest[0]))
    ensures HexPrefix(uuid + rest) == uuid
  {
    var s := uuid + rest;
    assert forall k :: 0 <= k < |uuid| ==> s[k] == uuid[k];
    assert rest != "" ==> s[|uuid|] == rest[0];
  }

  lemma TailOf(tld: string, port: Option<string>)
    requires IsTld(tld) && PortOk(port)
    ensures forall k :: 0 <= k < |PortText(port)| ==> IsDigit(PortText(port)[k])
    ensures ParseTail(tld + PortSuffix(port)) == Some(Value(PortText(port)))
  {
    var after := PortSuffix(port);
    var s := tld + after;
    assert s[|tld|..] == after;
    assert port.Some? ==> after != "" && after[1..] == port.value;
    assert s[0] == tld[0];
    assert ParseTail(s) == ParsePort(after);
    EightyIs80();
  }

  lemma EightyIs80()
    ensures Value("80") == 80
  {
    assert "80"[..1] == "8" && "8"[..0] == "";
    assert Value("8") == 8;
  }

  /** Everything the expression matches is accepted, with its groups as the result; the port is 80 by default. */
  lemma ParseComplete(url: string, uuid: string, tld: string, port: Option<string>)
    requires Matches(url, uuid, tld, port)
    ensures port.None? ==> ParseRequest(Some(url)) == Ok(Target(uuid, 80))
    ensures port.Some? ==> ParseInt(port.value).Some? && ParseInt(port.value).value >= 0
                           && ParseRequest(Some(url)) == Ok(Target(uuid, ParseInt(port.value).value))
  {
    MatchesIff(url, uuid, tld, port);
    hide ParseRequest, ParseTail, ParseInt, Value, IsHex, IsDigit, Matches, IsTld;
    var tail := tld + PortSuffix(port);
    assert url == uuid + "." + tail;
    ParseDotted(uuid, tail);
    TailOf(tld, port);
    ParseAllDigits(PortText(port));
    EightyIs80();
  }

  lemma ParseDotted(uuid: string, tail: string)
    requires IsUuid(uuid)
    ensures ParseRequest(Some(uuid + "." + tail))
            == match ParseTail(tail)
               case None => Err(InvalidHostname)
               case Some(port) => Ok(Target(uuid, port))
  {
    var url := uuid + "." + tail;
    assert url == uuid + ("." + tail);
    HexPrefixOf(uuid, "." + tail);
    assert url[|uuid|..] == "." + tail && ("." + tail)[1..] == tail;
  }

  lemma PortSound(s: string)
    requires ParsePort(s).Some?
    ensures exists port :: PortOk(port) && s == PortSuffix(port)
  {
    if s == "" {
      assert PortOk(None) && PortSuffix(None) == s;
    } else {
      assert s == ":" + s[1..];
      assert PortOk(Some(s[1..])) && PortSuffix(Some(s[1..])) == s;
    }
  }

  lemma TailSound(s: string)
    requires ParseTail(s).Some?
    ensures exists tld, port :: IsTld(tld) && PortOk(port) && s == tld + PortSuffix(port)
  {
    var tld := if "balena" <= s then "balena" else if "resin" <= s then "resin" else "vpn";
    PortSound(s[|tld|..]);
    var port :| PortOk(port) && s[|tld|..] == PortSuffix(port);
    assert s == tld + s[|tld|..];
    assert IsTld(tld) && s == tld + PortSuffix(port);
  }

  /** What is accepted is matched: the parser accepts exactly the language of the expression. */
  lemma ParseSound(url: string)
    requires ParseRequest(Some(url)).Ok?
    ensures exists tld, port :: Matches(url, ParseRequest(Some(url)).value.uuid, tld, port)
  {
    hide ParseTail, IsNumber, IsTld, IsHex, PortSuffix, PortOk;
    var uuid := HexPrefix(url);
    var tail := url[|uuid|..][1..];
    TailSound(tail);
    var tld, port :| IsTld(tld) && PortOk(port) && tail == tld + PortSuffix(port);
    assert url == uuid + "." + tail;
    MatchesIff(url, uuid, tld, port);
  }

  // ---------------------------------------------------------------------------------------
  // Printing
  // ---------------------------------------------------------------------------------------

  /** The rewrite of `req.url` in `tunnelToDevice`. */
  function RewrittenUrl(t: Target): (s: string) {
    t.uuid + ".vpn:" + Digits(t.port)
  }

  /** The request line written by `forwardRequest`. */
  function ConnectLine(t: Target): (s: string) {
    "CONNECT " + t.uuid + ".balena:" + Digits(t.port) + " HTTP/1.0\r\n"
  }

  /** The second word of a request line. */
  function RequestTarget(line: string): (s: Option<string>) {
    var words := Split(line, ' ');
    if |words| > 1 then Some(words[1]) else None
  }

  lemma TargetRoundTrip(t: Target, tld: string)
    requires IsUuid(t.uuid) && IsTld(tld)
    ensures ParseRequest(Some(t.uuid + "." + tld + (":" + Digits(t.port)))) == Ok(t)
  {
    var url := t.uuid + "." + tld + (":" + Digits(t.port));
    MatchesIff(url, t.uuid, tld, Some(Digits(t.port)));
    ParseComplete(url, t.uuid, tld, Some(Digits(t.port)));
    ParseDigits(t.port);
  }

  lemma RewrittenText(t: Target)
    ensures RewrittenUrl(t) == t.uuid + "." + "vpn" + (":" + Digits(t.port))
  {
    assert ".vpn:" == "." + "vpn" + ":";
  }

  /** The rewritten url is the `.vpn` name of the target, and the parser inverts it. */
  lemma RewriteRoundTrip(t: Target)
    requires IsUuid(t.uuid)
    ensures Matches(RewrittenUrl(t), t.uuid, "vpn", Some(Digits(t.port)))
    ensures ParseRequest(Some(RewrittenUrl(t))) == Ok(t)
  {
    TargetRoundTrip(t, "vpn");
    RewrittenText(t);
    MatchesIff(RewrittenUrl(t), t.uuid, "vpn", Some(Digits(t.port)));
  }

  lemma ConnectText(t: Target, target: string)
    requires target == t.uuid + ".balena:" + Digits(t.port)
    ensures ConnectLine(t) == "CONNECT" + [' '] + (target + [' '] + "HTTP/1.0\r\n")
    ensures target == t.uuid + "." + "balena" + (":" + Digits(t.port))
  {
    assert "CONNECT " == "CONNECT" + [' '];
    assert " HTTP/1.0\r\n" == [' '] + "HTTP/1.0\r\n";
    assert ".balena:" == "." + "balena" + ":";
  }

  lemma TargetHasNoSpace(t: Target)
    requires IsUuid(t.uuid)
    ensures ' ' !in t.uuid + ".balena:" + Digits(t.port)
  {
    DigitsAvoid(t.port, ' ');
    assert forall k :: 0 <= k < |t.uuid| ==> IsHex(t.uuid[k]) && t.uuid[k] != ' ';
    assert ' ' !in ".balena:";
  }

  lemma ConnectWords(t: Target)
    requires IsUuid(t.uuid)
    ensures Split(ConnectLine(t), ' ') == ["CONNECT", t.uuid + ".balena:" + Digits(t.port), "HTTP/1.0\r\n"]
    ensures RequestTarget(ConnectLine(t)) == Some(t.uuid + "." + "balena" + (":" + Digits(t.port)))
  {
    var target := t.uuid + ".balena:" + Digits(t.port);
    TargetHasNoSpace(t);
    ConnectText(t, target);
    WordsOf("CONNECT", target, "HTTP/1.0\r\n");
  }

  lemma WordsOf(a: string, b: string, c: string)
    requires ' ' !in a && ' ' !in b && ' ' !in c
    ensures Split(a + [' '] + (b + [' '] + c), ' ') == [a, b, c]
    ensures RequestTarget(a + [' '] + (b + [' '] + c)) == Some(b)
  {
    SplitCons(a, ' ', b + [' '] + c);
    SplitCons(b, ' ', c);
    SplitNone(c, ' ');
  }

  /** The forwarded line asks for the target with CONNECT, and the parser on the other instance inverts it. */
  lemma ForwardRoundTrip(t: Target)
    requires IsUuid(t.uuid)
    ensures Split(ConnectLine(t), ' ') == ["CONNECT", t.uuid + ".balena:" + Digits(t.port), "HTTP/1.0\r\n"]
    ensures ParseRequest(RequestTarget(ConnectLine(t))) == Ok(t)
  {
    TargetRoundTrip(t, "balena");
    ConnectWords(t);
  }

  // ---------------------------------------------------------------------------------------
  // Routing
  // ---------------------------------------------------------------------------------------

  /** The answer of `getDeviceVpnHost`: a host, none, a 401, or an error. */
  datatype Lookup = Host(id: int, address: string) | NotFound | Unauthorized | Failed

  /** What one instance learns from outside while it serves one request; None is an API error. */
  datatype Answers = Answers(
    access: bool, connected: Option<bool>, local: bool, lookup: Lookup, localLater: bool, looped: bool)

  datatype Outcome = Refused(status: nat) | Local(target: Target) | Forwarded(address: string, line: string)

  /** `connect` on the instance with the given service id, for the rewritten url. */
  function ConnectTo(serviceId: int, url: string, a: Answers): (o: Outcome) {
    match ParseRequest(Some(url))
    case Err(_) => Refused(500)
    case Ok(t) =>
      if a.local then Local(t)
      else match a.lookup
        case Failed => Refused(500)
        case NotFound => Refused(500)
        case Unauthorized => if a.localLater then Local(t) else Refused(500)
        case Host(id, address) =>
          if id == serviceId then (if a.localLater then Local(t) else Refused(500))
          else if a.looped then Refused(500)
          else Forwarded(address, ConnectLine(t))
  }

  /** `tunnelToDevice` and then `connect`. */
  function Serve(serviceId: int, url: Option<string>, a: Answers): (o: Outcome) {
    match ParseRequest(url)
    case Err(BadRequest) => Refused(400)
    case Err(InvalidHostname) => Refused(403)
    case Ok(t) =>
      if !a.access then Refused(407)
      else if a.connected.None? then Refused(500)
      else if !a.connected.value then Refused(503)
      else ConnectTo(serviceId, RewrittenUrl(t), a)
  }

  /** The outcomes of a request along the instances it visits; `at` tells which instance an address reaches. */
  function Journey(at: map<string, int>, serviceId: int, url: Option<string>, answers: seq<Answers>): (os: seq<Outcome>)
    decreases |answers|
  {
    if answers == [] then [] else
      var o := Serve(serviceId, url, answers[0]);
      if o.Forwarded? && o.address in at
      then [o] + Journey(at, at[o.address], RequestTarget(o.line), answers[1..])
      else [o]
  }

  lemma ParsedUuid(url: Option<string>)
    requires ParseRequest(url).Ok?
    ensures IsUuid(ParseRequest(url).value.uuid)
  {
  }

  /** One instance: what it connects to or forwards is the target of the request. */
  lemma ServeKeepsTarget(serviceId: int, url: Option<string>, a: Answers)
    ensures var o := Serve(serviceId, url, a);
            && (o.Local? ==> ParseRequest(url) == Ok(o.target))
            && (o.Forwarded? ==> ParseRequest(url).Ok? && ParseRequest(RequestTarget(o.line)) == ParseRequest(url))
            && (!o.Refused? ==> a.access && a.connected == Some(true))
            && (o.Forwarded? ==> a.lookup.Host? && a.lookup.id != serviceId && o.address == a.lookup.address)
  {
    hide ParseRequest, RequestTarget, RewrittenUrl, ConnectLine, Matches, Split;
    if ParseRequest(url).Ok? {
      var t := ParseRequest(url).value;
      ParsedUuid(url);
      RewriteRoundTrip(t);
      ForwardRoundTrip(t);
    }
  }

  /** The expression matches the url, with some groups. */
  ghost predicate IsHostname(url: string) {
    exists uuid, tld, port :: Matches(url, uuid, tld, port)
  }

  lemma HostnameIff(url: Option<string>)
    ensures ParseRequest(url).Ok? <==> url.Some? && IsHostname(url.value)
    ensures ParseRequest(url) == Err(BadRequest) <==> url.None?
    ensures ParseRequest(url) == Err(InvalidHostname) <==> url.Some? && !IsHostname(url.value)
  {
    hide Matches;
    if url.Some? && IsHostname(url.value) {
      var uuid, tld, port :| Matches(url.value, uuid, tld, port);
      ParseComplete(url.value, uuid, tld, port);
    }
    if url.Some? && ParseRequest(url).Ok? {
      ParseSound(url.value);
    }
  }

  /** An admitted request that ends in an error on this instance. */
  predicate Unroutable(serviceId: int, a: Answers) {
    && !a.local
    && match a.lookup
       case Failed => true
       case NotFound => true
       case Unauthorized => !a.localLater
       case Host(id, _) => if id == serviceId then !a.localLater else a.looped
  }

  /** Which failure gives which status. */
  lemma RefusalStatus(serviceId: int, url: Option<string>, a: Answers)
    ensures var o, named := Serve(serviceId, url, a), url.Some? && IsHostname(url.value);
            && (o == Refused(400) <==> url.None?)
            && (o == Refused(403) <==> url.Some? && !IsHostname(url.value))
            && (o == Refused(407) <==> named && !a.access)
            && (o == Refused(503) <==> named && a.access && a.connected == Some(false))
            && (o == Refused(500) <==>
                  named && a.access && (a.connected.None? || (a.connected.value && Unroutable(serviceId, a))))
            && (o.Refused? ==> o.status in [400, 403, 407, 503, 500])
  {
    HostnameIff(url);
    if ParseRequest(url).Ok? {
      ParsedUuid(url);
      RewriteRoundTrip(ParseRequest(url).value);
    }
    hide ParseRequest, IsHostname, RewrittenUrl, ConnectLine;
  }

  /** Every lookup either names this host or names none. */
  ghost predicate Steady(answers: seq<Answers>, host: Lookup) {
    forall k :: 0 <= k < |answers| && answers[k].lookup.Host? ==> answers[k].lookup == host
  }

  /**
   While the registry does not change its answer for the device and the registered address reaches
   the instance with the registered id, a request is forwarded at most once, by the first instance,
   and wherever it is connected its uuid and port are those that were asked for; every instance on
   the way has checked that the device may be accessed.
   */
  lemma ForwardedAtMostOnce(at: map<string, int>, serviceId: int, url: Option<string>, answers: seq<Answers>,
                            host: Lookup)
    requires host.Host? && host.address in at && at[host.address] == host.id && Steady(answers, host)
    ensures var os := Journey(at, serviceId, url, answers);
            && |os| <= 2
            && (forall k :: 1 <= k < |os| ==> !os[k].Forwarded?)
            && (forall k :: 0 <= k < |os| && os[k].Local? ==> ParseRequest(url) == Ok(os[k].target))
            && |os| <= |answers| && (forall k :: 0 <= k < |os| && !os[k].Refused? ==> answers[k].access)
  {
    if answers == [] {
      return;
    }
    var o := Serve(serviceId, url, answers[0]);
    JourneyStarts(at, serviceId, url, answers);
    hide Journey, Serve, ParseRequest, RequestTarget, Steady;
    SteadyRest(answers, host);
    ServeKeepsTarget(serviceId, url, answers[0]);
    if o.Forwarded? {
      LastHop(at, host, RequestTarget(o.line), answers[1..]);
    }
  }

  lemma JourneyStarts(at: map<string, int>, serviceId: int, url: Option<string>, answers: seq<Answers>)
    requires answers != []
    ensures var o := Serve(serviceId, url, answers[0]);
            Journey(at, serviceId, url, answers)
            == [o] + if o.Forwarded? && o.address in at
                     then Journey(at, at[o.address], RequestTarget(o.line), answers[1..])
                     else []
  {
    hide Serve;
  }

  lemma SteadyRest(answers: seq<Answers>, host: Lookup)
    requires Steady(answers, host) && answers != []
    ensures Steady(answers[1..], host) && (answers[0].lookup.Host? ==> answers[0].lookup == host)
  {
  }

  /** The registered instance does not forward a request to itself. */
  lemma LastHop(at: map<string, int>, host: Lookup, url: Option<string>, answers: seq<Answers>)
    requires host.Host? && Steady(answers, host)
    ensures var os := Journey(at, host.id, url, answers);
            && |os| <= 1 && |os| <= |answers|
            && (|os| == 1 ==> !os[0].Forwarded?
                              && (os[0].Local? ==> ParseRequest(url) == Ok(os[0].target))
                              && (!os[0].Refused? ==> answers[0].access))
  {
    if answers == [] {
      return;
    }
    ServeKeepsTarget(host.id, url, answers[0]);
    hide Serve, ParseRequest;
  }

  /** The device may be accessed and is known to be connected. */
  predicate Admitted(a: Answers) {
    a.access && a.connected == Some(true)
  }

  /**
   A device that is here is reached here; one that shows up here after a pause too, if the registry
   does not name another instance.
   */
  lemma LocalDeviceReached(serviceId: int, url: Option<string>, a: Answers)
    requires ParseRequest(url).Ok? && Admitted(a)
    ensures Serve(serviceId, url, a) == Local(ParseRequest(url).value) <==>
              a.local || (a.localLater && (a.lookup.Unauthorized? || (a.lookup.Host? && a.lookup.id == serviceId)))
  {
    ParsedUuid(url);
    RewriteRoundTrip(ParseRequest(url).value);
  }

  /** A device on another instance is reached through one forward to the instance the registry names. */
  lemma RemoteDeviceReached(at: map<string, int>, serviceId: int, url: Option<string>, here: Answers, there: Answers)
    requires ParseRequest(url).Ok? && Admitted(here) && Admitted(there)
    requires !here.local && !here.looped && here.lookup.Host? && here.lookup.id != serviceId
    requires here.lookup.address in at && there.local
    ensures var t := ParseRequest(url).value;
            Journey(at, serviceId, url, [here, there]) == [Forwarded(here.lookup.address, ConnectLine(t)), Local(t)]
  {
    var t := ParseRequest(url).value;
    ParsedUuid(url);
    RewriteRoundTrip(t);
    ForwardRoundTrip(t);
    var o := Forwarded(here.lookup.address, ConnectLine(t));
    assert Serve(serviceId, url, here) == o;
    LocalDeviceReached(at[o.address], RequestTarget(o.line), there);
    assert [here, there][1..] == [there];
    assert Journey(at, at[o.address], RequestTarget(o.line), [there]) == [Local(t)];
  }
}
