/**
 The traffic-shaping script openvpn/scripts/learn-address.sh.

 The script keeps, in a state directory, the class id given to each IP, the device each shaped IP
 is on and the last class id handed out; beside it stand the rules installed with `tc`. One run
 of the script is one step. Deleting a filter removes the filters of that device and IP, adding a
 class fails when the class exists, and adding anything fails on a device without its queueing
 discipline or for a class id tc cannot express; failures are reported and do not stop the script.
 */
module LearnAddress {
  import opened Sequences
  import opened Text

  type Ip = string
  type Dev = string
  type Rate = string

  /** Traffic to the client: a filter that sends it to the class of the client. */
  datatype Egress = Egress(dev: Dev, ip: Ip, classid: nat)
  /** Traffic from the client: a policing filter. */
  datatype Ingress = Ingress(dev: Dev, ip: Ip, rate: Rate, classid: nat)

  datatype Kernel = Kernel(
    qdiscs: set<Dev>,
    classes: map<(Dev, nat), Rate>,
    egress: seq<Egress>,
    ingress: seq<Ingress>,
    errors: nat)

  /** The files *.classid, *.dev and last_classid, and the kernel. */
  datatype State = State(classids: map<Ip, nat>, devs: map<Ip, Dev>, last: Option<nat>, kernel: Kernel)

  const CLEAN: State := State(map[], map[], None, Kernel({}, map[], [], [], 0))

  function Keep<T(!new)>(s: seq<T>, p: T -> bool): (r: seq<T>)
    ensures forall x :: x in r <==> x in s && p(x)
    ensures NoDuplicates(s) ==> NoDuplicates(r)
  {
    if s == [] then [] else
      var n := |s| - 1;
      assert s == s[..n] + [s[n]];
      Keep(s[..n], p) + if p(s[n]) then [s[n]] else []
  }

  // ---------------------------------------------------------------------------------------
  // tc
  // ---------------------------------------------------------------------------------------

  /** tc reads the digits of a class id as a hexadecimal number of at most 16 bits. */
  const MAX_CLASSID: nat := 9999

  function AddQdisc(k: Kernel, dev: Dev): (r: Kernel) {
    k.(qdiscs := k.qdiscs + {dev})
  }

  function AddClass(k: Kernel, dev: Dev, classid: nat, rate: Rate): (r: Kernel) {
    if dev in k.qdiscs && classid <= MAX_CLASSID && (dev, classid) !in k.classes
    then k.(classes := k.classes[(dev, classid) := rate])
    else k.(errors := k.errors + 1)
  }

  function AddEgress(k: Kernel, f: Egress): (r: Kernel) {
    if f.dev in k.qdiscs && f.classid <= MAX_CLASSID
    then k.(egress := k.egress + [f])
    else k.(errors := k.errors + 1)
  }

  function AddIngress(k: Kernel, f: Ingress): (r: Kernel) {
    if f.dev in k.qdiscs && f.classid <= MAX_CLASSID
    then k.(ingress := k.ingress + [f])
    else k.(errors := k.errors + 1)
  }

  function DeleteRules(k: Kernel, dev: Dev, ip: Ip, classid: nat): (r: Kernel) {
    Kernel(k.qdiscs,
           k.classes - {(dev, classid)},
           Keep(k.egress, (f: Egress) => !(f.dev == dev && f.ip == ip)),
           Keep(k.ingress, (f: Ingress) => !(f.dev == dev && f.ip == ip)),
           k.errors)
  }

  // ---------------------------------------------------------------------------------------
  // The script
  // ---------------------------------------------------------------------------------------

  /** bwlimit-disable: the class id stays for reuse. */
  function Disable(s: State, ip: Ip): (r: State) {
    if ip !in s.classids || ip !in s.devs then s
    else s.(kernel := DeleteRules(s.kernel, s.devs[ip], ip, s.classids[ip]), devs := s.devs - {ip})
  }

  /** The class id for an IP: its own, or the one after the last. */
  function ClassFor(s: State, ip: Ip): (c: nat) {
    if ip in s.classids then s.classids[ip] else if s.last.Some? then s.last.value + 1 else 1
  }

  function InstallRules(k: Kernel, ip: Ip, dev: Dev, down: Rate, up: Rate, classid: nat): (r: Kernel) {
    AddIngress(AddEgress(AddClass(k, dev, classid, down), Egress(dev, ip, classid)), Ingress(dev, ip, up, classid))
  }

  /** bwlimit-enable */
  function Enable(s: State, ip: Ip, dev: Dev, down: Rate, up: Rate): (r: State) {
    var t := Disable(s, ip);
    var classid := ClassFor(t, ip);
    State(t.classids[ip := classid], t.devs[ip := dev], if ip in t.classids then t.last else Some(classid),
          InstallRules(t.kernel, ip, dev, down, up, classid))
  }

  /** The arguments and the `dev` environment variable. */
  datatype Invocation = Invocation(args: seq<string>, envDev: Dev)

  datatype Command = Rejected | Command(action: string, ip: Ip, dev: Dev, down: Rate, up: Rate)

  function Arg(args: seq<string>, i: nat): (s: string)
    requires i >= 1
  {
    if i <= |args| then args[i - 1] else ""
  }

  predicate IsDevice(arg: string) {
    "tun" <= arg || "tap" <= arg || arg == "lo"
  }

  /** The last argument that names a device, or the environment's. */
  function FindDevice(args: seq<string>, envDev: Dev): (d: Dev) {
    if args == [] then envDev
    else if IsDevice(args[|args| - 1]) then args[|args| - 1]
    else FindDevice(args[..|args| - 1], envDev)
  }

  /** ^[0-9]+(kbit|mbit|gbit)$ */
  predicate IsRate(s: string) {
    var digits := DigitPrefix(s);
    digits != "" && IsUnit(s[|digits|..])
  }

  predicate IsUnit(s: string) {
    s == "kbit" || s == "mbit" || s == "gbit"
  }

  /** A number followed by a unit. */
  ghost predicate WritesRate(s: string) {
    exists n: string, unit: string :: RateText(s, n, unit)
  }

  ghost predicate RateText(s: string, n: string, unit: string) {
    && n != "" && (forall k :: 0 <= k < |n| ==> n[k] in "0123456789")
    && unit in {"kbit", "mbit", "gbit"} && s == n + unit
  }

  /** The rate check accepts exactly a number followed by one of the three units. */
  lemma RateIff(s: string)
    ensures IsRate(s) <==> WritesRate(s)
  {
    var digits := DigitPrefix(s);
    if IsRate(s) {
      forall k | 0 <= k < |digits| ensures digits[k] in "0123456789" {
        DigitLiteral(digits[k]);
      }
      assert RateText(s, digits, s[|digits|..]);
    }
    if n: string, unit: string :| RateText(s, n, unit) {
      forall k | 0 <= k < |n| ensures s[k] == n[k] && IsDigit(n[k]) {
        DigitLiteral(n[k]);
      }
      assert s[|n|] == unit[0];
      assert |digits| == |n|;
      assert s[|n|..] == unit;
    }
  }

  function Parse(call: Invocation): (c: Command) {
    var args := call.args;
    var dev := FindDevice(args, call.envDev);
    if |args| < (if Arg(args, 3) == "delete" then 4 else 5) then Rejected
    else if args[2] != "delete" && dev == "" then Rejected
    else if !IsRate(args[0]) || !IsRate(args[1]) then Rejected
    else Command(args[2], args[3], dev, args[0], args[1])
  }

  function PrepareDevice(s: State, dev: Dev): (r: State) {
    if dev == "" then s else s.(kernel := AddQdisc(s.kernel, dev))
  }

  function Execute(s: State, c: Command): (r: State) {
    match c
    case Rejected => s
    case Command(action, ip, dev, down, up) =>
      var t := PrepareDevice(s, dev);
      if action == "add" || action == "update" then Enable(t, ip, dev, down, up)
      else if action == "delete" then Disable(t, ip)
      else t
  }

  function ExitCode(c: Command): (code: nat) {
    if c.Command? && (c.action == "add" || c.action == "update" || c.action == "delete") then 0 else 1
  }

  function RunAll(calls: seq<Invocation>): (s: State) {
    if calls == [] then CLEAN else Execute(RunAll(calls[..|calls| - 1]), Parse(calls[|calls| - 1]))
  }

  // ---------------------------------------------------------------------------------------
  // The words of a call
  // ---------------------------------------------------------------------------------------

  /** tun*, tap* or lo */
  ghost predicate DeviceLike(arg: string) {
    arg == "lo" || (|arg| >= 3 && arg[..3] in {"tun", "tap"})
  }

  /** Argument `k` is the last one that looks like a device. */
  ghost predicate LastNamed(args: seq<string>, k: nat) {
    k < |args| && DeviceLike(args[k]) && forall j :: k < j < |args| ==> !DeviceLike(args[j])
  }

  /** `dev` is the last argument that looks like a device, or the environment's if none does. */
  ghost predicate Names(call: Invocation, dev: Dev) {
    || (exists k: nat :: LastNamed(call.args, k) && dev == call.args[k])
    || (dev == call.envDev && forall j :: 0 <= j < |call.args| ==> !DeviceLike(call.args[j]))
  }

  /** The calls that get past the checks: two rates, an IP, and for all but a delete five words and a device. */
  ghost predicate Accepted(call: Invocation) {
    var args := call.args;
    && |args| >= 4 && WritesRate(args[0]) && WritesRate(args[1])
    && (args[2] == "delete" || (|args| >= 5 && !Names(call, "")))
  }

  lemma DeviceLikeIff(arg: string)
    ensures IsDevice(arg) <==> DeviceLike(arg)
  {
    if "tun" <= arg || "tap" <= arg {
      assert arg[..3] == if "tun" <= arg then "tun" else "tap";
    }
  }

  lemma NamesWithoutLast(call: Invocation, before: Invocation, dev: Dev)
    requires call.args != [] && before == Invocation(call.args[..|call.args| - 1], call.envDev)
    requires !DeviceLike(call.args[|call.args| - 1])
    ensures Names(call, dev) <==> Names(before, dev)
  {
    hide DeviceLike;
    var n := |call.args| - 1;
    if k: nat :| LastNamed(call.args, k) && dev == call.args[k] {
      assert LastNamed(before.args, k);
    }
    if k: nat :| LastNamed(before.args, k) && dev == before.args[k] {
      assert LastNamed(call.args, k);
    }
    if forall j :: 0 <= j < n ==> !DeviceLike(before.args[j]) {
      assert forall j :: 0 <= j <= n ==> !DeviceLike(call.args[j]);
    }
    if forall j :: 0 <= j <= n ==> !DeviceLike(call.args[j]) {
      assert forall j :: 0 <= j < n ==> !DeviceLike(before.args[j]);
    }
  }

  /** The loop's result is the device the call names, and no other is. */
  lemma {:induction false} DeviceIsLast(args: seq<string>, envDev: Dev)
    ensures forall dev :: Names(Invocation(args, envDev), dev) <==> dev == FindDevice(args, envDev)
  {
    if args == [] {
      return;
    }
    hide DeviceLike, IsDevice;
    var n := |args| - 1;
    var call, before := Invocation(args, envDev), Invocation(args[..n], envDev);
    DeviceLikeIff(args[n]);
    DeviceIsLast(args[..n], envDev);
    if IsDevice(args[n]) {
      assert LastNamed(args, n);
    } else {
      forall dev ensures Names(call, dev) <==> Names(before, dev) {
        NamesWithoutLast(call, before, dev);
      }
    }
  }

  /** A call is accepted exactly when its words say so, and its command is made of them. */
  lemma ParseReadsWords(call: Invocation, dev: Dev)
    requires Names(call, dev)
    ensures Parse(call).Command? <==> Accepted(call)
    ensures Accepted(call) ==> Parse(call) == Command(call.args[2], call.args[3], dev, call.args[0], call.args[1])
  {
    hide IsRate, FindDevice, Names, WritesRate;
    DeviceIsLast(call.args, call.envDev);
    assert call == Invocation(call.args, call.envDev);
    if |call.args| >= 2 {
      RateIff(call.args[0]);
      RateIff(call.args[1]);
    }
  }

  // ---------------------------------------------------------------------------------------
  // What should be installed
  // ---------------------------------------------------------------------------------------

  datatype Limit = Limit(dev: Dev, down: Rate, up: Rate)

  /** The limits the callers asked for: the last add or update of each IP that was not deleted since. */
  function Wanted(calls: seq<Invocation>): (w: map<Ip, Limit>) {
    if calls == [] then map[] else Ask(Wanted(calls[..|calls| - 1]), Parse(calls[|calls| - 1]))
  }

  function Ask(w: map<Ip, Limit>, c: Command): (r: map<Ip, Limit>) {
    if c.Rejected? then w
    else if c.action == "add" || c.action == "update" then w[c.ip := Limit(c.dev, c.down, c.up)]
    else if c.action == "delete" then w - {c.ip}
    else w
  }

  /** The IPs that were ever given a limit. */
  function Given(calls: seq<Invocation>): (ips: set<Ip>) {
    if calls == [] then {} else
      var c := Parse(calls[|calls| - 1]);
      Given(calls[..|calls| - 1]) + if c.Command? && (c.action == "add" || c.action == "update") then {c.ip} else {}
  }

  /** The IPs are numbered from one to `n`. */
  ghost predicate Numbered(ids: map<Ip, nat>, n: nat) {
    && (forall a, b :: a in ids && b in ids && a != b ==> ids[a] != ids[b])
    && (forall a :: a in ids ==> 1 <= ids[a] <= n)
    && |ids.Keys| == n
  }

  /** Distinct IPs have distinct class ids, all between one and last_classid, which counts them. */
  ghost predicate DistinctClasses(s: State) {
    Numbered(s.classids, LastId(s))
  }

  function LastId(s: State): (n: nat) {
    if s.last.Some? then s.last.value else 0
  }

  /** A tc command has failed exactly if more class ids were given than tc can express. */
  predicate ErrorsExact(s: State) {
    s.kernel.errors == 0 <==> LastId(s) <= MAX_CLASSID
  }

  /** The limit for `ip` is wanted and its class id can be expressed. */
  predicate Shaped(s: State, w: map<Ip, Limit>, ip: Ip) {
    ip in w && ip in s.classids && s.classids[ip] <= MAX_CLASSID
  }

  ghost predicate Recorded(s: State, w: map<Ip, Limit>) {
    && s.devs.Keys == w.Keys
    && (forall ip :: ip in w ==> s.devs[ip] == w[ip].dev && ip in s.classids && w[ip].dev in s.kernel.qdiscs)
  }

  /** One filter per wanted limit. */
  ghost predicate EgressExact(s: State, w: map<Ip, Limit>) {
    && NoDuplicates(s.kernel.egress)
    && (forall f :: f in s.kernel.egress <==>
          Shaped(s, w, f.ip) && f.dev == w[f.ip].dev && f.classid == s.classids[f.ip])
  }

  /** One policer per wanted limit, with its upload rate. */
  ghost predicate IngressExact(s: State, w: map<Ip, Limit>) {
    && NoDuplicates(s.kernel.ingress)
    && (forall f :: f in s.kernel.ingress <==>
          Shaped(s, w, f.ip) && f.dev == w[f.ip].dev && f.rate == w[f.ip].up && f.classid == s.classids[f.ip])
  }

  /** `key` is the class of the wanted limit for `ip`. */
  predicate ClassOf(s: State, w: map<Ip, Limit>, ip: Ip, key: (Dev, nat)) {
    Shaped(s, w, ip) && key == (w[ip].dev, s.classids[ip])
  }

  /** One class per wanted limit, with its download rate. */
  ghost predicate ClassesExact(s: State, w: map<Ip, Limit>) {
    && (forall ip, key :: ClassOf(s, w, ip, key) ==> key in s.kernel.classes && s.kernel.classes[key] == w[ip].down)
    && (forall key :: key in s.kernel.classes ==> exists ip :: ClassOf(s, w, ip, key))
  }

  /** The rules of the kernel are exactly one class, one filter and one policer per wanted limit that tc can express. */
  ghost predicate Installed(s: State, w: map<Ip, Limit>) {
    ErrorsExact(s) && EgressExact(s, w) && IngressExact(s, w) && ClassesExact(s, w)
  }

  ghost predicate Consistent(s: State, w: map<Ip, Limit>) {
    DistinctClasses(s) && Recorded(s, w) && Installed(s, w)
  }

  lemma PrepareKeeps(s: State, w: map<Ip, Limit>, dev: Dev)
    requires Consistent(s, w)
    ensures Consistent(PrepareDevice(s, dev), w)
  {
    var t := PrepareDevice(s, dev);
    forall key | key in t.kernel.classes ensures exists ip :: ClassOf(t, w, ip, key) {
      var ip :| ClassOf(s, w, ip, key);
      assert ClassOf(t, w, ip, key);
    }
    assert forall ip, key :: ClassOf(t, w, ip, key) == ClassOf(s, w, ip, key);
  }

  lemma DisableFields(s: State, ip: Ip)
    requires ip in s.classids && ip in s.devs
    ensures var t := Disable(s, ip);
            && t.classids == s.classids && t.kernel.classes == s.kernel.classes - {(s.devs[ip], s.classids[ip])}
            && (forall f :: f in t.kernel.egress <==> f in s.kernel.egress && !(f.dev == s.devs[ip] && f.ip == ip))
            && (forall f :: f in t.kernel.ingress <==> f in s.kernel.ingress && !(f.dev == s.devs[ip] && f.ip == ip))
            && (NoDuplicates(s.kernel.egress) ==> NoDuplicates(t.kernel.egress))
            && (NoDuplicates(s.kernel.ingress) ==> NoDuplicates(t.kernel.ingress))
  {
    hide NoDuplicates;
  }

  /** In `t` the class of `ip` is gone and nothing else changed. */
  predicate ClassGone(s: State, t: State, w: map<Ip, Limit>, ip: Ip) {
    && ip in w && ip in s.classids && t.classids == s.classids
    && t.kernel.classes == s.kernel.classes - {(w[ip].dev, s.classids[ip])}
  }

  lemma OtherClassesStay(s: State, t: State, w: map<Ip, Limit>, ip: Ip, a: Ip, key: (Dev, nat))
    requires ClassGone(s, t, w, ip) && ClassesExact(s, w) && ClassOf(t, w - {ip}, a, key)
    requires s.classids[a] != s.classids[ip]
    ensures key in t.kernel.classes && t.kernel.classes[key] == w[a].down
  {
    assert ClassOf(s, w, a, key);
  }

  lemma NoClassLeft(s: State, t: State, w: map<Ip, Limit>, ip: Ip, key: (Dev, nat))
    requires ClassGone(s, t, w, ip) && ClassesExact(s, w) && key in t.kernel.classes
    ensures exists a :: ClassOf(t, w - {ip}, a, key)
  {
    var a :| ClassOf(s, w, a, key);
    assert ClassOf(t, w - {ip}, a, key);
  }

  lemma DisableClasses(s: State, w: map<Ip, Limit>, ip: Ip)
    requires DistinctClasses(s) && Recorded(s, w) && ClassesExact(s, w) && ip in w
    ensures ClassesExact(Disable(s, ip), w - {ip})
  {
    var t, v := Disable(s, ip), w - {ip};
    DisableFields(s, ip);
    OthersDiffer(s, ip);
    assert ClassGone(s, t, w, ip);
    hide Disable, Numbered, Recorded, ClassGone;
    forall a, key | ClassOf(t, v, a, key) ensures key in t.kernel.classes && t.kernel.classes[key] == v[a].down {
      OtherClassesStay(s, t, w, ip, a, key);
    }
    forall key | key in t.kernel.classes ensures exists a :: ClassOf(t, v, a, key) {
      NoClassLeft(s, t, w, ip, key);
    }
  }

  lemma OthersDiffer(s: State, ip: Ip)
    requires DistinctClasses(s) && ip in s.classids
    ensures forall a :: a in s.classids && a != ip ==> s.classids[a] != s.classids[ip]
  {
  }

  lemma DisableFilters(s: State, w: map<Ip, Limit>, ip: Ip)
    requires Recorded(s, w) && EgressExact(s, w) && IngressExact(s, w) && ip in w
    ensures EgressExact(Disable(s, ip), w - {ip}) && IngressExact(Disable(s, ip), w - {ip})
  {
    hide Disable, NoDuplicates;
    DisableFields(s, ip);
  }

  lemma DisableKeeps(s: State, w: map<Ip, Limit>, ip: Ip)
    requires Consistent(s, w)
    ensures Consistent(Disable(s, ip), w - {ip})
  {
    if ip in w {
      DisableClasses(s, w, ip);
      DisableFilters(s, w, ip);
    } else {
      assert w - {ip} == w;
    }
  }

  lemma FreshClass(t: State, ip: Ip, w: map<Ip, Limit>)
    requires Consistent(t, w) && ip !in w
    ensures ClassFor(t, ip) >= 1
    ensures forall a :: a in t.classids && a != ip ==> t.classids[a] != ClassFor(t, ip)
    ensures forall d :: (d, ClassFor(t, ip)) !in t.kernel.classes
  {
  }

  /** The kernel after the rules of a new limit were added, or after tc refused its class id. */
  lemma EnableKernel(t: State, w: map<Ip, Limit>, ip: Ip, dev: Dev, down: Rate, up: Rate)
    requires Consistent(t, w) && ip !in w && dev in t.kernel.qdiscs
    ensures var c := ClassFor(t, ip);
            Enable(t, ip, dev, down, up).kernel
            == if c <= MAX_CLASSID
               then Kernel(t.kernel.qdiscs, t.kernel.classes[(dev, c) := down],
                           t.kernel.egress + [Egress(dev, ip, c)], t.kernel.ingress + [Ingress(dev, ip, up, c)],
                           t.kernel.errors)
               else t.kernel.(errors := t.kernel.errors + 3)
  {
    FreshClass(t, ip, w);
    assert Disable(t, ip) == t;
  }

  lemma EnableFields(t: State, ip: Ip, dev: Dev, down: Rate, up: Rate)
    requires ip !in t.devs
    ensures var r, c := Enable(t, ip, dev, down, up), ClassFor(t, ip);
            && r.classids == t.classids[ip := c] && r.devs == t.devs[ip := dev]
            && r.last == (if ip in t.classids then t.last else Some(c))
            && r.kernel.qdiscs == t.kernel.qdiscs
  {
    assert Disable(t, ip) == t;
  }

  lemma EnableClasses(t: State, w: map<Ip, Limit>, ip: Ip, dev: Dev, down: Rate, up: Rate)
    requires Consistent(t, w) && ip !in w && dev in t.kernel.qdiscs
    ensures ClassesExact(Enable(t, ip, dev, down, up), w[ip := Limit(dev, down, up)])
  {
    var r, v, c := Enable(t, ip, dev, down, up), w[ip := Limit(dev, down, up)], ClassFor(t, ip);
    hide Enable, ClassFor, EgressExact, IngressExact, Numbered, ErrorsExact;
    FreshClass(t, ip, w);
    EnableKernel(t, w, ip, dev, down, up);
    EnableFields(t, ip, dev, down, up);
    forall a, key | ClassOf(r, v, a, key) ensures key in r.kernel.classes && r.kernel.classes[key] == v[a].down {
      if a != ip { assert ClassOf(t, w, a, key); }
    }
    forall key | key in r.kernel.classes ensures exists a :: ClassOf(r, v, a, key) {
      if key == (dev, c) && c <= MAX_CLASSID {
        assert ClassOf(r, v, ip, key);
      } else {
        var a :| ClassOf(t, w, a, key);
        assert ClassOf(r, v, a, key);
      }
    }
  }

  lemma EnableFilters(t: State, w: map<Ip, Limit>, ip: Ip, dev: Dev, down: Rate, up: Rate)
    requires Consistent(t, w) && ip !in w && dev in t.kernel.qdiscs
    ensures var r, v := Enable(t, ip, dev, down, up), w[ip := Limit(dev, down, up)];
            EgressExact(r, v) && IngressExact(r, v)
  {
    hide Enable, ClassFor, ClassesExact, Numbered, ErrorsExact;
    EnableKernel(t, w, ip, dev, down, up);
    EnableFields(t, ip, dev, down, up);
  }

  lemma NumberedExtends(ids: map<Ip, nat>, n: nat, ip: Ip)
    requires Numbered(ids, n)
    ensures if ip in ids then ids[ip := ids[ip]] == ids else Numbered(ids[ip := n + 1], n + 1)
  {
    if ip !in ids {
      assert ids[ip := n + 1].Keys == ids.Keys + {ip};
    }
  }

  lemma EnableIds(t: State, w: map<Ip, Limit>, ip: Ip, dev: Dev, down: Rate, up: Rate)
    requires Consistent(t, w) && ip !in w
    ensures DistinctClasses(Enable(t, ip, dev, down, up))
  {
    EnableFields(t, ip, dev, down, up);
    hide Enable, Installed, Numbered;
    NumberedExtends(t.classids, LastId(t), ip);
  }

  lemma EnableRecorded(t: State, w: map<Ip, Limit>, ip: Ip, dev: Dev, down: Rate, up: Rate)
    requires Consistent(t, w) && ip !in w && dev in t.kernel.qdiscs
    ensures Recorded(Enable(t, ip, dev, down, up), w[ip := Limit(dev, down, up)])
    ensures ErrorsExact(Enable(t, ip, dev, down, up))
  {
    EnableKernel(t, w, ip, dev, down, up);
    EnableFields(t, ip, dev, down, up);
    hide Enable, EgressExact, IngressExact, ClassesExact;
  }

  lemma EnableFresh(t: State, w: map<Ip, Limit>, ip: Ip, dev: Dev, down: Rate, up: Rate)
    requires Consistent(t, w) && ip !in w && dev in t.kernel.qdiscs
    ensures Consistent(Enable(t, ip, dev, down, up), w[ip := Limit(dev, down, up)])
  {
    hide Enable, EgressExact, IngressExact, ClassesExact, DistinctClasses, Recorded, ErrorsExact;
    EnableIds(t, w, ip, dev, down, up);
    EnableRecorded(t, w, ip, dev, down, up);
    EnableClasses(t, w, ip, dev, down, up);
    EnableFilters(t, w, ip, dev, down, up);
  }

  lemma DisableTwice(s: State, ip: Ip)
    ensures Disable(Disable(s, ip), ip) == Disable(s, ip)
    ensures Disable(s, ip).kernel.qdiscs == s.kernel.qdiscs
  {
  }

  lemma EnableAfterDisable(s: State, ip: Ip, dev: Dev, down: Rate, up: Rate)
    ensures Enable(Disable(s, ip), ip, dev, down, up) == Enable(s, ip, dev, down, up)
  {
    DisableTwice(s, ip);
  }

  /** Enabling first disables, so an IP may already be shaped, on this device or another. */
  lemma EnableKeeps(s: State, w: map<Ip, Limit>, ip: Ip, dev: Dev, down: Rate, up: Rate)
    requires Consistent(s, w) && dev in s.kernel.qdiscs
    ensures Consistent(Enable(s, ip, dev, down, up), w[ip := Limit(dev, down, up)])
  {
    DisableKeeps(s, w, ip);
    DisableTwice(s, ip);
    EnableAfterDisable(s, ip, dev, down, up);
    AskAgain(w, ip, Limit(dev, down, up));
    EnableFresh(Disable(s, ip), w - {ip}, ip, dev, down, up);
  }

  lemma AskAgain(w: map<Ip, Limit>, ip: Ip, limit: Limit)
    ensures (w - {ip})[ip := limit] == w[ip := limit]
  {
  }

  lemma ExecuteKeeps(s: State, w: map<Ip, Limit>, c: Command)
    requires Consistent(s, w)
    requires c.Command? && c.action != "delete" ==> c.dev != ""
    ensures Consistent(Execute(s, c), Ask(w, c))
  {
    if c.Command? {
      var t := PrepareDevice(s, c.dev);
      PrepareKeeps(s, w, c.dev);
      if c.action == "add" || c.action == "update" {
        EnableKeeps(t, w, c.ip, c.dev, c.down, c.up);
      } else if c.action == "delete" {
        DisableKeeps(t, w, c.ip);
      }
    }
  }

  lemma ExecuteGives(s: State, c: Command)
    ensures Execute(s, c).classids.Keys
            == s.classids.Keys + if c.Command? && (c.action == "add" || c.action == "update") then {c.ip} else {}
  {
    hide InstallRules, DeleteRules;
  }

  lemma {:induction false} GivenHaveClasses(calls: seq<Invocation>)
    ensures RunAll(calls).classids.Keys == Given(calls)
  {
    hide Parse, Execute;
    if calls == [] {
      assert CLEAN.classids.Keys == {};
    } else {
      GivenHaveClasses(calls[..|calls| - 1]);
      ExecuteGives(RunAll(calls[..|calls| - 1]), Parse(calls[|calls| - 1]));
    }
  }

  lemma {:induction false} AlwaysConsistent(calls: seq<Invocation>)
    ensures Consistent(RunAll(calls), Wanted(calls))
  {
    if calls != [] {
      var n := |calls| - 1;
      AlwaysConsistent(calls[..n]);
      ExecuteKeeps(RunAll(calls[..n]), Wanted(calls[..n]), Parse(calls[n]));
    }
  }

  /**
   After every sequence of runs the state directory and the kernel agree with what was asked for:
   class ids are distinct and bounded, and the rules are exactly those of the wanted limits whose
   class id tc can express, also when an IP has moved between devices. No tc command has failed,
   and every wanted limit is among them, if and only if at most 9999 IPs were ever given a limit.
   */
  lemma RulesAreExact(calls: seq<Invocation>)
    ensures var s := RunAll(calls);
            && Consistent(s, Wanted(calls))
            && (s.kernel.errors == 0 <==> |Given(calls)| <= 9999)
            && (|Given(calls)| <= 9999 ==> forall ip :: ip in Wanted(calls) ==> Shaped(s, Wanted(calls), ip))
  {
    AlwaysConsistent(calls);
    GivenHaveClasses(calls);
    hide RunAll, Wanted, Given, EgressExact, IngressExact, ClassesExact;
  }

  predicate Adds(action: string) {
    action in {"add", "update"}
  }

  /**
   What one more call asks for, read off its words: a rejected one nothing; an add or update a limit
   for the fourth word on the device named, download rate first; a delete none for the fourth word.
   */
  lemma CallAsks(calls: seq<Invocation>, call: Invocation, dev: Dev)
    requires Names(call, dev)
    ensures var w, args := Wanted(calls), call.args;
            && Wanted(calls + [call])
               == (if !Accepted(call) then w
                   else if Adds(args[2]) then w[args[3] := Limit(dev, args[0], args[1])]
                   else if args[2] == "delete" then w - {args[3]}
                   else w)
            && Given(calls + [call])
               == Given(calls) + (if Accepted(call) && Adds(args[2]) then {args[3]} else {})
    ensures ExitCode(Parse(call))
            == if Accepted(call) && (Adds(call.args[2]) || call.args[2] == "delete") then 0 else 1
  {
    assert (calls + [call])[..|calls|] == calls;
    ParseReadsWords(call, dev);
    hide Parse, Accepted, Names;
  }

  /** What one more call does beyond that: a rejected one nothing, an accepted one prepares its device. */
  lemma CallPrepares(calls: seq<Invocation>, call: Invocation, dev: Dev)
    requires Names(call, dev)
    ensures var s, t := RunAll(calls), RunAll(calls + [call]);
            && (!Accepted(call) ==> t == s)
            && t.kernel.qdiscs == s.kernel.qdiscs + if Accepted(call) && dev != "" then {dev} else {}
  {
    assert (calls + [call])[..|calls|] == calls;
    ParseReadsWords(call, dev);
    ExecutePrepares(RunAll(calls), Parse(call));
    assert RunAll(calls + [call]) == Execute(RunAll(calls), Parse(call));
    hide Parse, Accepted, Execute, RunAll, Names;
  }

  lemma ExecutePrepares(s: State, c: Command)
    ensures c.Rejected? ==> Execute(s, c) == s
    ensures Execute(s, c).kernel.qdiscs == s.kernel.qdiscs + if c.Command? && c.dev != "" then {c.dev} else {}
  {
    hide Keep;
  }

  /**
   From words to rules: after `down up add ip cn dev` or the same with `update`, whatever ran before,
   the rules for the IP are one class with the download rate, one filter and one policer with the
   upload rate, all on that device, if tc can express its class id.
   */
  lemma AddInstalls(calls: seq<Invocation>, down: Rate, up: Rate, action: string, ip: Ip, cn: string, dev: Dev,
                    envDev: Dev)
    requires WritesRate(down) && WritesRate(up) && DeviceLike(dev) && Adds(action)
    ensures var after := calls + [Invocation([down, up, action, ip, cn, dev], envDev)];
            var s := RunAll(after);
            && Wanted(after) == Wanted(calls)[ip := Limit(dev, down, up)]
            && ip in s.classids && ip in s.devs && s.devs[ip] == dev
            && var c := s.classids[ip];
               c <= 9999 ==>
                 && (dev, c) in s.kernel.classes && s.kernel.classes[(dev, c)] == down
                 && (forall f :: f in s.kernel.egress && f.ip == ip <==> f == Egress(dev, ip, c))
                 && (forall f :: f in s.kernel.ingress && f.ip == ip <==> f == Ingress(dev, ip, up, c))
  {
    var call := Invocation([down, up, action, ip, cn, dev], envDev);
    var after := calls + [call];
    assert call.args[5] == dev && LastNamed(call.args, 5);
    DeviceIsLast(call.args, envDev);
    CallAsks(calls, call, dev);
    AlwaysConsistent(after);
    hide RunAll, Wanted, WritesRate, FindDevice, Names, Consistent;
    OneRuleEach(RunAll(after), Wanted(after), ip);
  }

  /** After a delete, with or without further words, there is no rule and no device file for the IP. */
  lemma DeleteRemoves(calls: seq<Invocation>, down: Rate, up: Rate, ip: Ip, rest: seq<string>, envDev: Dev)
    requires WritesRate(down) && WritesRate(up)
    ensures var after := calls + [Invocation([down, up, "delete", ip] + rest, envDev)];
            var s := RunAll(after);
            && Wanted(after) == Wanted(calls) - {ip}
            && ip !in s.devs
            && (forall f :: f in s.kernel.egress ==> f.ip != ip)
            && (forall f :: f in s.kernel.ingress ==> f.ip != ip)
            && (ip in s.classids ==> forall d :: (d, s.classids[ip]) !in s.kernel.classes)
  {
    var call := Invocation([down, up, "delete", ip] + rest, envDev);
    DeviceIsLast(call.args, envDev);
    CallAsks(calls, call, FindDevice(call.args, envDev));
    AlwaysConsistent(calls + [call]);
    hide RunAll, Wanted, WritesRate, FindDevice, Names, Consistent;
    NoRules(RunAll(calls + [call]), Wanted(calls + [call]), ip);
  }

  lemma NoRules(s: State, w: map<Ip, Limit>, ip: Ip)
    requires Consistent(s, w) && ip !in w
    ensures ip !in s.devs
    ensures (forall f :: f in s.kernel.egress ==> f.ip != ip) && (forall f :: f in s.kernel.ingress ==> f.ip != ip)
    ensures ip in s.classids ==> forall d :: (d, s.classids[ip]) !in s.kernel.classes
  {
    hide NoDuplicates;
  }

  lemma OneRuleEach(s: State, w: map<Ip, Limit>, ip: Ip)
    requires Consistent(s, w) && ip in w
    ensures ip in s.classids && ip in s.devs && s.devs[ip] == w[ip].dev
    ensures var l, c := w[ip], s.classids[ip];
            c <= 9999 ==>
              && (l.dev, c) in s.kernel.classes && s.kernel.classes[(l.dev, c)] == l.down
              && (forall f :: f in s.kernel.egress && f.ip == ip <==> f == Egress(l.dev, ip, c))
              && (forall f :: f in s.kernel.ingress && f.ip == ip <==> f == Ingress(l.dev, ip, l.up, c))
  {
    hide NoDuplicates;
    assert s.classids[ip] <= 9999 ==> ClassOf(s, w, ip, (w[ip].dev, s.classids[ip]));
  }

  /** One run keeps the class ids that were given and never lowers last_classid. */
  lemma ExecuteExtends(s: State, c: Command, ip: Ip)
    requires ip in s.classids && s.last.Some?
    ensures var t := Execute(s, c);
            ip in t.classids && t.classids[ip] == s.classids[ip] && t.last.Some? && s.last.value <= t.last.value
  {
  }

  lemma LastKnown(calls: seq<Invocation>, ip: Ip)
    requires ip in RunAll(calls).classids
    ensures RunAll(calls).last.Some?
  {
    AlwaysConsistent(calls);
  }

  lemma StepExtends(calls: seq<Invocation>, call: Invocation, ip: Ip)
    requires ip in RunAll(calls).classids && RunAll(calls).last.Some?
    ensures var s, t := RunAll(calls), RunAll(calls + [call]);
            ip in t.classids && t.classids[ip] == s.classids[ip] && t.last.Some? && s.last.value <= t.last.value
  {
    assert (calls + [call])[..|calls|] == calls;
    ExecuteExtends(RunAll(calls), Parse(call), ip);
  }

  /** Once given, the class id of an IP never changes, and last_classid never decreases. */
  lemma {:induction false} ClassIsPermanent(before: seq<Invocation>, after: seq<Invocation>, ip: Ip)
    requires ip in RunAll(before).classids
    ensures var s, t := RunAll(before), RunAll(before + after);
            && ip in t.classids && t.classids[ip] == s.classids[ip]
            && s.last.Some? && t.last.Some? && s.last.value <= t.last.value
    decreases |after|
  {
    LastKnown(before, ip);
    if after == [] {
      assert before + after == before;
    } else {
      var n := |after| - 1;
      ClassIsPermanent(before, after[..n], ip);
      StepExtends(before + after[..n], after[n], ip);
      assert before + after == before + after[..n] + [after[n]];
    }
  }
}

/** The script as an object whose fields are its files and the kernel, proved against module LearnAddress. */
module LearnAddressCode {
  import opened Sequences
  import opened LearnAddress

  method FindDeviceArgument(args: seq<string>, envDev: Dev) returns (dev: Dev)
    ensures dev == FindDevice(args, envDev) && Names(Invocation(args, envDev), dev)
  {
    DeviceIsLast(args, envDev);
    dev := envDev;
    for k := 0 to |args|
      invariant dev == FindDevice(args[..k], envDev)
    {
      assert args[..k + 1][..k] == args[..k];
      if IsDevice(args[k]) {
        dev := args[k];
      }
    }
    assert args[..|args|] == args;
  }

  class Shaper {
    var classids: map<Ip, nat>
    var devs: map<Ip, Dev>
    var lastClassid: Option<nat>
    var kernel: Kernel
    /** The runs so far. */
    ghost var calls: seq<Invocation>

    ghost function Model(): (s: State)
      reads this
    {
      State(classids, devs, lastClassid, kernel)
    }

    /** Files and rules agree with the limits asked for. */
    ghost predicate Valid()
      reads this
    {
      Model() == RunAll(calls) && Consistent(Model(), Wanted(calls))
    }

    constructor ()
      ensures Valid() && calls == []
    {
      classids, devs, lastClassid, kernel, calls := map[], map[], None, CLEAN.kernel, [];
      new;
      AlwaysConsistent([]);
    }

    method BwlimitDisable(ip: Ip)
      modifies this`devs, this`kernel
      ensures Model() == Disable(old(Model()), ip)
    {
      if ip !in classids {
        return;
      }
      if ip !in devs {
        return;
      }
      var classid := classids[ip];
      kernel := DeleteRules(kernel, devs[ip], ip, classid);
      devs := devs - {ip};
    }

    method BwlimitEnable(ip: Ip, dev: Dev, down: Rate, up: Rate)
      modifies this`classids, this`devs, this`lastClassid, this`kernel
      ensures Model() == Enable(old(Model()), ip, dev, down, up)
    {
      BwlimitDisable(ip);
      var classid: nat;
      if ip in classids {
        classid := classids[ip];
      } else {
        classid := if lastClassid.Some? then lastClassid.value + 1 else 1;
        lastClassid := Some(classid);
      }
      kernel := AddClass(kernel, dev, classid, down);
      kernel := AddEgress(kernel, Egress(dev, ip, classid));
      kernel := AddIngress(kernel, Ingress(dev, ip, up, classid));
      classids := classids[ip := classid];
      devs := devs[ip := dev];
    }

    /** One run of the script; the result is its exit code. */
    method Script(call: Invocation) returns (code: nat)
      requires Valid()
      modifies this
      ensures Valid() && calls == old(calls) + [call]
      ensures code == if Accepted(call) && (Adds(call.args[2]) || call.args[2] == "delete") then 0 else 1
    {
      hide Consistent, Enable, Disable, RunAll, Wanted, Accepted;
      Ran(calls, call);
      calls := calls + [call];
      var args := call.args;
      if Arg(args, 3) == "delete" {
        if |args| < 4 { return 1; }
      } else if |args| < 5 {
        return 1;
      }
      var dev := FindDeviceArgument(args, call.envDev);
      if args[2] != "delete" && dev == "" {
        return 1;
      }
      if !IsRate(args[0]) || !IsRate(args[1]) {
        return 1;
      }
      if dev != "" {
        kernel := AddQdisc(kernel, dev);
      }
      if args[2] == "add" || args[2] == "update" {
        BwlimitEnable(args[3], dev, args[0], args[1]);
      } else if args[2] == "delete" {
        BwlimitDisable(args[3]);
      } else {
        return 1;
      }
      return 0;
    }
  }

  lemma Ran(calls: seq<Invocation>, call: Invocation)
    ensures RunAll(calls + [call]) == Execute(RunAll(calls), Parse(call))
    ensures Consistent(RunAll(calls + [call]), Wanted(calls + [call]))
    ensures ExitCode(Parse(call))
            == if Accepted(call) && (Adds(call.args[2]) || call.args[2] == "delete") then 0 else 1
  {
    assert (calls + [call])[..|calls|] == calls;
    AlwaysConsistent(calls + [call]);
    DeviceIsLast(call.args, call.envDev);
    CallAsks(calls, call, FindDevice(call.args, call.envDev));
  }
}
