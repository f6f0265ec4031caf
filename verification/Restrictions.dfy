/**
 The rules that say which tunnels a server allows: how a request is checked against them, how the
 command line flags compile to them, and what the compiled rules mean.
 */
module Restrictions {
  import opened Common
  // ----- addresses and networks -----

  /** An address as the number its bits make: 32 of them in version 4, 128 in version 6. */
  datatype Ip = V4(bits: nat) | V6(bits: nat)

  function Width(ip: Ip): nat { if ip.V4? then 32 else 128 }

  predicate ValidIp(ip: Ip) { ip.bits < Pow2(Width(ip)) }

  datatype IpNet = IpNet(addr: Ip, prefix: nat)

  predicate ValidNet(net: IpNet) { ValidIp(net.addr) && net.prefix <= Width(net.addr) }

  /** How many addresses share the prefix. */
  function HostCount(net: IpNet): (n: nat)
    requires ValidNet(net)
    ensures n > 0
  {
    Pow2(Width(net.addr) - net.prefix)
  }

  lemma RemainderIsLess(a: nat, n: nat)
    requires n > 0
    ensures a % n <= a
  {
    if a < n {
      assert a % n == a;
    }
  }

  function RoundDown(a: nat, n: nat): nat
    requires n > 0
  {
    assert a % n <= a by { RemainderIsLess(a, n); }
    a - a % n
  }

  /** The address with its host bits cleared, and with its host bits set. */
  function Network(net: IpNet): nat
    requires ValidNet(net)
  {
    RoundDown(net.addr.bits, HostCount(net))
  }

  function Broadcast(net: IpNet): nat
    requires ValidNet(net)
  {
    Network(net) + HostCount(net) - 1
  }

  /** `IpNet::contains`: same family, between the network and the broadcast address. */
  predicate Contains(net: IpNet, ip: Ip)
    requires ValidNet(net)
  {
    net.addr.V4? == ip.V4? && Network(net) <= ip.bits <= Broadcast(net)
  }

  lemma SameQuotient(a: nat, x: nat, n: nat)
    requires n > 0
    ensures RoundDown(a, n) <= x <= RoundDown(a, n) + n - 1 <==> x / n == a / n
  {
    Division(a, n);
    Division(x, n);
    SameMultiple(n, a / n, x / n, x % n);
  }

  lemma Division(a: nat, n: nat)
    requires n > 0
    ensures a == n * (a / n) + a % n && 0 <= a % n < n
  {
  }

  lemma SameMultiple(n: nat, q: nat, p: nat, r: nat)
    requires r < n
    ensures n * q <= n * p + r <= n * q + n - 1 <==> p == q
  {
    if p < q {
      Scale(n, p + 1, q);
    } else if p > q {
      Scale(n, q + 1, p);
    }
  }

  lemma Scale(n: nat, a: nat, b: nat)
    requires a <= b
    ensures n * a <= n * b
  {
  }

  /** A network holds exactly the addresses that agree with it in the prefix (section 3.1 of RFC 4632). */
  lemma ContainsIsPrefix(net: IpNet, ip: Ip)
    requires ValidNet(net)
    ensures Contains(net, ip) <==> net.addr.V4? == ip.V4? && ip.bits / HostCount(net) == net.addr.bits / HostCount(net)
  {
    SameQuotient(net.addr.bits, ip.bits, HostCount(net));
  }

  /** Hence prefix 0 holds the whole family, and a full prefix only the address itself. */
  lemma ExtremePrefixes(net: IpNet, ip: Ip)
    requires ValidNet(net) && ValidIp(ip)
    ensures net.prefix == 0 ==> (Contains(net, ip) <==> net.addr.V4? == ip.V4?)
    ensures net.prefix == (if net.addr.V4? then 32 else 128) ==> (Contains(net, ip) <==> ip == net.addr)
  {
    hide Pow2;
    ContainsIsPrefix(net, ip);
    if net.prefix == 0 && net.addr.V4? == ip.V4? {
      SmallQuotient(ip.bits, HostCount(net));
      SmallQuotient(net.addr.bits, HostCount(net));
    }
    if net.prefix == Width(net.addr) {
      PowOfNothing();
      assert ip.bits / 1 == ip.bits && net.addr.bits / 1 == net.addr.bits;
    }
  }

  lemma PowOfNothing()
    ensures Pow2(0) == 1
  {
  }

  lemma SmallQuotient(x: nat, n: nat)
    requires x < n
    ensures x / n == 0
  {
  }

  // ----- requests -----

  datatype Host = Domain(name: string) | Address(ip: Ip)

  /** Of the parameters of a protocol only the path of a reverse unix socket is looked at; it may not be text. */
  datatype Protocol =
    | Tcp | Udp | Stdio | TunnelStdio | Socks5 | TProxyTcp | TProxyUdp | HttpProxy | Unix
    | ReverseTcp | ReverseUdp | ReverseSocks5 | ReverseHttpProxy | ReverseUnix(path: Option<string>)

  predicate IsReverse(p: Protocol) {
    p.ReverseTcp? || p.ReverseUdp? || p.ReverseSocks5? || p.ReverseUnix? || p.ReverseHttpProxy?
  }

  type Port = x: nat | x < 0x1_0000

  datatype RemoteAddr = RemoteAddr(protocol: Protocol, host: Host, port: Port)

  // ----- rules -----

  /** The two patterns the flags use, and any other. */
  datatype Regex = AnyLine | Exactly(text: string) | Pattern(accepts: string -> bool)

  predicate IsMatch(r: Regex, s: string) {
    match r
    case AnyLine => '\n' !in s
    case Exactly(text) => s == text
    case Pattern(accepts) => accepts(s)
  }

  datatype TunnelKind = TcpKind | UdpKind | UnknownKind
  datatype ReverseKind = RTcp | RUdp | RSocks5 | RUnix | RHttpProxy | RUnknown

  function TunnelKindOf(p: Protocol): TunnelKind {
    match p
    case Tcp => TcpKind
    case Udp => UdpKind
    case _ => UnknownKind
  }

  function ReverseKindOf(p: Protocol): ReverseKind {
    match p
    case ReverseTcp => RTcp
    case ReverseUdp => RUdp
    case ReverseSocks5 => RSocks5
    case ReverseUnix(_) => RUnix
    case ReverseHttpProxy => RHttpProxy
    case _ => RUnknown
  }

  datatype Range = Range(first: Port, last: Port)

  datatype Allow =
    | Tunnel(kinds: seq<TunnelKind>, ports: seq<Range>, host: Regex, cidr: seq<IpNet>)
    | ReverseTunnel(reverseKinds: seq<ReverseKind>, ports: seq<Range>, portMapping: map<Port, Port>,
        cidr: seq<IpNet>, unixPath: Regex)

  datatype Match = Any | PathPrefix(path: Regex) | Authorization(value: Regex)

  datatype Restriction = Restriction(name: string, matches: seq<Match>, allow: seq<Allow>)

  predicate ValidAllow(a: Allow) { forall i :: 0 <= i < |a.cidr| ==> ValidNet(a.cidr[i]) }

  predicate ValidRestriction(r: Restriction) { forall i :: 0 <= i < |r.allow| ==> ValidAllow(r.allow[i]) }

  predicate ValidRules(rs: seq<Restriction>) { forall i :: 0 <= i < |rs| ==> ValidRestriction(rs[i]) }

  // ----- checking a request -----

  predicate Holds(m: Match, path: string, auth: Option<string>) {
    match m
    case Any => true
    case PathPrefix(r) => IsMatch(r, path)
    case Authorization(r) => auth.Some? && IsMatch(r, auth.value)
  }

  predicate Filter(r: Restriction, path: string, auth: Option<string>) {
    forall i :: 0 <= i < |r.matches| ==> Holds(r.matches[i], path, auth)
  }

  predicate InRange(ports: seq<Range>, port: Port) {
    exists i :: 0 <= i < |ports| && ports[i].first <= port <= ports[i].last
  }

  predicate InCidr(cidr: seq<IpNet>, ip: Ip)
    requires forall i :: 0 <= i < |cidr| ==> ValidNet(cidr[i])
  {
    exists i :: 0 <= i < |cidr| && Contains(cidr[i], ip)
  }

  const INVALID_UNIX_PATH: string := "####INVALID_UNIX_PATH####"

  predicate ReverseAllowed(a: Allow, remote: RemoteAddr)
    requires a.ReverseTunnel? && ValidAllow(a)
  {
    if !IsReverse(remote.protocol) then false
    else if remote.protocol.ReverseUnix? then
      IsMatch(a.unixPath, if remote.protocol.path.Some? then remote.protocol.path.value else INVALID_UNIX_PATH)
    else if a.ports != [] && !InRange(a.ports, remote.port) then false
    else if a.reverseKinds != [] && ReverseKindOf(remote.protocol) !in a.reverseKinds then false
    else remote.host.Address? && InCidr(a.cidr, remote.host.ip)
  }

  predicate TunnelAllowed(a: Allow, remote: RemoteAddr)
    requires a.Tunnel? && ValidAllow(a)
  {
    if IsReverse(remote.protocol) then false
    else if a.ports != [] && !InRange(a.ports, remote.port) then false
    else if a.kinds != [] && TunnelKindOf(remote.protocol) !in a.kinds then false
    else match remote.host
      case Domain(name) => IsMatch(a.host, name)
      case Address(ip) => InCidr(a.cidr, ip)
  }

  predicate IsAllowed(a: Allow, remote: RemoteAddr)
    requires ValidAllow(a)
  {
    if a.ReverseTunnel? then ReverseAllowed(a, remote) else TunnelAllowed(a, remote)
  }

  predicate Accepts(r: Restriction, remote: RemoteAddr, path: string, auth: Option<string>)
    requires ValidRestriction(r)
  {
    Filter(r, path, auth) && exists i :: 0 <= i < |r.allow| && IsAllowed(r.allow[i], remote)
  }

  /** The protocol is one that a rule of its direction lists. */
  predicate Listed(a: Allow, p: Protocol) {
    match a
    case Tunnel(kinds, _, _, _) =>
      && !IsReverse(p)
      && (if p.Tcp? then TcpKind else if p.Udp? then UdpKind else UnknownKind) in kinds
    case ReverseTunnel(kinds, _, _, _, _) =>
      || (p.ReverseTcp? && RTcp in kinds) || (p.ReverseUdp? && RUdp in kinds) || (p.ReverseSocks5? && RSocks5 in kinds)
      || (p.ReverseHttpProxy? && RHttpProxy in kinds) || (p.ReverseUnix? && RUnix in kinds)
  }

  /** A rule for reverse TCP tunnels only, with the default path pattern, allows a reverse unix socket. */
  lemma UnixSocketIgnoresTheList()
    ensures var a := ReverseTunnel([RTcp], [], map[], [], AnyLine);
            var remote := RemoteAddr(ReverseUnix(Some("/x")), Domain("h"), 0);
            ValidAllow(a) && IsAllowed(a, remote) && !Listed(a, remote.protocol)
  {
    assert OneLine("/x");
  }

  /**
   A rule that lists protocols allows only those, whatever is asked for, exactly if it is a forward
   rule, lists unix sockets, or has a path pattern that matches nothing.
   */
  lemma ListedProtocolsOnly(a: Allow)
    requires ValidAllow(a) && (if a.Tunnel? then a.kinds != [] else a.reverseKinds != [])
    ensures (forall remote :: IsAllowed(a, remote) ==> Listed(a, remote.protocol)) <==>
            a.Tunnel? || RUnix in a.reverseKinds || forall path :: !IsMatch(a.unixPath, path)
  {
    if a.ReverseTunnel? && RUnix !in a.reverseKinds {
      if path :| IsMatch(a.unixPath, path) {
        var remote := RemoteAddr(ReverseUnix(Some(path)), Domain(""), 0);
        assert IsAllowed(a, remote) && !Listed(a, remote.protocol);
      }
    }
  }

  /** A list of ranges that is not empty and in none of which the port lies. */
  predicate PortShutOut(ports: seq<Range>, port: Port) {
    ports != [] && forall i :: 0 <= i < |ports| ==> port < ports[i].first || ports[i].last < port
  }

  /** An address of another family than each network, or that differs from it within the prefix. */
  predicate OutsideAll(cidr: seq<IpNet>, ip: Ip)
    requires forall i :: 0 <= i < |cidr| ==> ValidNet(cidr[i])
  {
    forall i :: 0 <= i < |cidr| ==>
      cidr[i].addr.V4? != ip.V4? || ip.bits / HostCount(cidr[i]) != cidr[i].addr.bits / HostCount(cidr[i])
  }

  lemma OutsideIsNotInside(cidr: seq<IpNet>, ip: Ip)
    requires forall i :: 0 <= i < |cidr| ==> ValidNet(cidr[i])
    ensures OutsideAll(cidr, ip) <==> !InCidr(cidr, ip)
  {
    hide Contains;
    forall i | 0 <= i < |cidr|
      ensures Contains(cidr[i], ip) <==>
              cidr[i].addr.V4? == ip.V4? && ip.bits / HostCount(cidr[i]) == cidr[i].addr.bits / HostCount(cidr[i])
    {
      ContainsIsPrefix(cidr[i], ip);
    }
  }

  /**
   What a forward rule refuses: reverse tunnels, ports in none of its ranges, protocols it does not
   list, names its pattern does not match and addresses in none of its networks; an empty list of
   ranges or protocols refuses nothing. Everything else it allows.
   */
  lemma ForwardRefuses(a: Allow, remote: RemoteAddr)
    requires a.Tunnel? && ValidAllow(a)
    ensures !IsAllowed(a, remote) <==>
            || remote.protocol in {ReverseTcp, ReverseUdp, ReverseSocks5, ReverseHttpProxy}
            || remote.protocol.ReverseUnix?
            || PortShutOut(a.ports, remote.port)
            || (a.kinds != [] && !Listed(a, remote.protocol))
            || (remote.host.Domain? && !IsMatch(a.host, remote.host.name))
            || (remote.host.Address? && OutsideAll(a.cidr, remote.host.ip))
  {
    hide OutsideAll;
    hide InCidr;
    if remote.host.Address? {
      OutsideIsNotInside(a.cidr, remote.host.ip);
    }
  }

  /**
   What a reverse rule refuses: forward tunnels; of unix sockets those whose path, or whose stand-in
   if it is not text, its pattern does not match; of the others ports in none of its ranges,
   protocols it does not list, names, and addresses in none of its networks.
   */
  lemma ReverseRefuses(a: Allow, remote: RemoteAddr)
    requires a.ReverseTunnel? && ValidAllow(a)
    ensures remote.protocol.ReverseUnix? ==>
              (!IsAllowed(a, remote) <==>
               !IsMatch(a.unixPath, if remote.protocol.path.Some? then remote.protocol.path.value
                                    else "####INVALID_UNIX_PATH####"))
    ensures !remote.protocol.ReverseUnix? ==>
              (!IsAllowed(a, remote) <==>
               || remote.protocol !in {ReverseTcp, ReverseUdp, ReverseSocks5, ReverseHttpProxy}
               || PortShutOut(a.ports, remote.port)
               || (a.reverseKinds != [] && !Listed(a, remote.protocol))
               || remote.host.Domain? || OutsideAll(a.cidr, remote.host.ip))
  {
    hide OutsideAll;
    hide InCidr;
    if remote.host.Address? {
      OutsideIsNotInside(a.cidr, remote.host.ip);
    }
  }

  /** A restriction's conditions fail exactly on a path its pattern does not match, or on an absent or other header. */
  lemma ConditionsFail(r: Restriction, path: string, auth: Option<string>)
    ensures !Filter(r, path, auth) <==>
            exists i :: 0 <= i < |r.matches| &&
                        (|| (r.matches[i].PathPrefix? && !IsMatch(r.matches[i].path, path))
                         || (r.matches[i].Authorization? && (auth == None || !IsMatch(r.matches[i].value, auth.value))))
  {
    forall i | 0 <= i < |r.matches|
      ensures !Holds(r.matches[i], path, auth) <==>
              || (r.matches[i].PathPrefix? && !IsMatch(r.matches[i].path, path))
              || (r.matches[i].Authorization? && (auth == None || !IsMatch(r.matches[i].value, auth.value)))
    {
    }
  }

  /** `validate_tunnel`: the first restriction that accepts, by its place in the rules. */
  function ValidateTunnel(remote: RemoteAddr, path: string, auth: Option<string>,
          rules: seq<Restriction>): (r: Option<nat>)
    requires ValidRules(rules)
    ensures r.Some? ==>
      && r.value < |rules| && Accepts(rules[r.value], remote, path, auth)
      && forall i :: 0 <= i < r.value ==> !Accepts(rules[i], remote, path, auth)
    ensures r.None? ==> forall i :: 0 <= i < |rules| ==> !Accepts(rules[i], remote, path, auth)
  {
    if rules == [] then None
    else if Accepts(rules[0], remote, path, auth) then Some(0)
    else
      var rest := ValidateTunnel(remote, path, auth, rules[1..]);
      assert forall i :: 0 < i < |rules| ==> rules[i] == rules[1..][i - 1];
      if rest.None? then None else Some(rest.value + 1)
  }

  /** `find_mapped_port`: the first reverse rule that maps the port decides. */
  function MappedPort(port: Port, allow: seq<Allow>): Port {
    if allow == [] then port
    else if allow[0].ReverseTunnel? && port in allow[0].portMapping then allow[0].portMapping[port]
    else MappedPort(port, allow[1..])
  }

  /** A port is mapped as its first mapping says. */
  lemma {:induction false} MappedPortIsFirst(port: Port, allow: seq<Allow>, i: nat)
    requires FirstMapping(allow, port, i)
    ensures MappedPort(port, allow) == allow[i].portMapping[port]
  {
    if i > 0 {
      assert !Maps(allow[0], port);
      assert forall k :: 0 <= k < |allow| - 1 ==> allow[1..][k] == allow[k + 1];
      MappedPortIsFirst(port, allow[1..], i - 1);
    }
  }

  /** And stays as it is when there is none. */
  lemma {:induction false} UnmappedPortStays(port: Port, allow: seq<Allow>)
    requires forall i :: 0 <= i < |allow| ==> !Maps(allow[i], port)
    ensures MappedPort(port, allow) == port
  {
    if allow != [] {
      assert !Maps(allow[0], port);
      assert forall k :: 0 <= k < |allow| - 1 ==> allow[1..][k] == allow[k + 1];
      UnmappedPortStays(port, allow[1..]);
    }
  }

  predicate Maps(a: Allow, port: Port) { a.ReverseTunnel? && port in a.portMapping }

  predicate FirstMapping(allow: seq<Allow>, port: Port, i: nat) {
    i < |allow| && Maps(allow[i], port) && forall k :: 0 <= k < i ==> !Maps(allow[k], port)
  }

  // ----- compiling the flags -----

  const ALL_V4 := IpNet(V4(0), 0)
  const ALL_V6 := IpNet(V6(0), 0)

  /** `IpAddr::from_str`, left abstract; what it returns are addresses. */
  type ParseIp = f: string -> Option<Ip> | forall s :: f(s).Some? ==> ValidIp(f(s).value)
    witness (s => None)

  function CompileDestination(parseIp: ParseIp, host: string, port: Port): Allow {
    match parseIp(host)
    case Some(ip) => Tunnel([], [Range(port, port)], Exactly(""), [IpNet(ip, Width(ip))])
    case None => Tunnel([], [Range(port, port)], Exactly(host), [])
  }

  function CompileDestinations(parseIp: ParseIp, restrictTo: seq<(string, Port)>): seq<Allow> {
    if restrictTo == [] then
      [Tunnel([], [], AnyLine, [ALL_V4, ALL_V6]), ReverseTunnel([], [], map[], [ALL_V4, ALL_V6], AnyLine)]
    else
      seq(|restrictTo|, i requires 0 <= i < |restrictTo| =>
        CompileDestination(parseIp, restrictTo[i].0, restrictTo[i].1))
  }

  /** `from_path_prefix`. */
  function FromPathPrefix(parseIp: ParseIp, prefixes: seq<string>, restrictTo: seq<(string, Port)>): seq<Restriction> {
    var allow := CompileDestinations(parseIp, restrictTo);
    if prefixes == [] then [Restriction("Allow All", [Any], allow)]
    else
      seq(|prefixes|, i requires 0 <= i < |prefixes| =>
        Restriction("Allow path prefix " + prefixes[i], [PathPrefix(Exactly(prefixes[i]))], allow))
  }

  // ----- what the flags mean -----

  predicate PathAllowed(prefixes: seq<string>, path: string) { prefixes == [] || path in prefixes }

  /** One destination of the flags: an address stands for itself, a name for itself. */
  predicate Names(parseIp: ParseIp, host: string, port: Port, remote: RemoteAddr) {
    && port == remote.port
    && match parseIp(host)
       case Some(ip) => remote.host == Address(ip) || remote.host == Domain("")
       case None => remote.host == Domain(host)
  }

  predicate OneLine(s: string) { '\n' !in s }

  /** Without destinations: every forward tunnel, reverse unix sockets, and reverse tunnels on an address. */
  predicate AnyDestination(remote: RemoteAddr) {
    if remote.protocol.ReverseUnix? then remote.protocol.path.Some? ==> OneLine(remote.protocol.path.value)
    else if IsReverse(remote.protocol) then remote.host.Address?
    else remote.host.Domain? ==> OneLine(remote.host.name)
  }

  predicate DestinationAllowed(parseIp: ParseIp, restrictTo: seq<(string, Port)>, remote: RemoteAddr) {
    if restrictTo == [] then AnyDestination(remote)
    else !IsReverse(remote.protocol) &&
         exists i :: 0 <= i < |restrictTo| && Names(parseIp, restrictTo[i].0, restrictTo[i].1, remote)
  }

  /** A request comes with addresses of its family's width. */
  predicate ValidRemote(remote: RemoteAddr) { remote.host.Address? ==> ValidIp(remote.host.ip) }

  lemma EverythingIsInDefaultCidr(ip: Ip)
    requires ValidIp(ip)
    ensures ValidNet(ALL_V4) && ValidNet(ALL_V6) && InCidr([ALL_V4, ALL_V6], ip)
  {
    hide Contains;
    ExtremePrefixes(ALL_V4, ip);
    ExtremePrefixes(ALL_V6, ip);
    var nets := [ALL_V4, ALL_V6];
    assert Contains(nets[if ip.V4? then 0 else 1], ip);
  }

  lemma CompiledDestinationMeans(parseIp: ParseIp, host: string, port: Port, remote: RemoteAddr)
    requires ValidRemote(remote)
    ensures ValidAllow(CompileDestination(parseIp, host, port))
    ensures IsAllowed(CompileDestination(parseIp, host, port), remote) <==>
            !IsReverse(remote.protocol) && Names(parseIp, host, port, remote)
  {
    hide Contains;
    var a := CompileDestination(parseIp, host, port);
    SinglePort(port, remote.port);
    match parseIp(host) {
      case Some(ip) =>
        var net := IpNet(ip, Width(ip));
        if remote.host.Address? {
          ExtremePrefixes(net, remote.host.ip);
          SingleNet(net, remote.host.ip);
        }
      case None =>
    }
  }

  lemma SinglePort(p: Port, port: Port)
    ensures InRange([Range(p, p)], port) <==> port == p
  {
    assert [Range(p, p)][0] == Range(p, p);
  }

  lemma SingleNet(net: IpNet, ip: Ip)
    requires ValidNet(net)
    ensures InCidr([net], ip) <==> Contains(net, ip)
  {
    assert [net][0] == net;
  }

  lemma NoDestinationsMean(parseIp: ParseIp, remote: RemoteAddr)
    requires ValidRemote(remote)
    ensures var allow := CompileDestinations(parseIp, []);
            && (forall i :: 0 <= i < |allow| ==> ValidAllow(allow[i]))
            && ((exists i :: 0 <= i < |allow| && IsAllowed(allow[i], remote)) <==> AnyDestination(remote))
  {
    hide InCidr;
    hide Names;
    var allow := CompileDestinations(parseIp, []);
    EverythingIsInDefaultCidr(V4(0));
    if remote.host.Address? {
      EverythingIsInDefaultCidr(remote.host.ip);
    }
    assert OneLine(INVALID_UNIX_PATH);
    assert IsAllowed(allow[0], remote) || IsAllowed(allow[1], remote) <==> AnyDestination(remote);
  }

  lemma CompiledDestinationsMean(parseIp: ParseIp, restrictTo: seq<(string, Port)>, remote: RemoteAddr)
    requires ValidRemote(remote)
    ensures var allow := CompileDestinations(parseIp, restrictTo);
            && (forall i :: 0 <= i < |allow| ==> ValidAllow(allow[i]))
            && ((exists i :: 0 <= i < |allow| && IsAllowed(allow[i], remote)) <==>
                DestinationAllowed(parseIp, restrictTo, remote))
  {
    hide Names;
    hide IsAllowed;
    hide ValidAllow;
    hide AnyDestination;
    if restrictTo == [] {
      NoDestinationsMean(parseIp, remote);
    } else {
      var allow := CompileDestinations(parseIp, restrictTo);
      forall i | 0 <= i < |allow|
        ensures ValidAllow(allow[i])
        ensures IsAllowed(allow[i], remote) <==>
                !IsReverse(remote.protocol) && Names(parseIp, restrictTo[i].0, restrictTo[i].1, remote)
      {
        CompiledDestinationMeans(parseIp, restrictTo[i].0, restrictTo[i].1, remote);
      }
    }
  }

  /**
   Conditions only narrow: a list of them holds exactly if both parts of it do, wherever it is cut;
   and a list with an authorization in it never holds for a request without one.
   */
  lemma ConditionsNarrow(r: Restriction, k: nat, path: string, auth: Option<string>)
    requires k <= |r.matches|
    ensures Filter(r, path, auth) <==>
            Filter(r.(matches := r.matches[..k]), path, auth) && Filter(r.(matches := r.matches[k..]), path, auth)
    ensures auth.None? && (exists i :: 0 <= i < |r.matches| && r.matches[i].Authorization?) ==> !Filter(r, path, auth)
  {
    var front, back := r.(matches := r.matches[..k]), r.(matches := r.matches[k..]);
    if Filter(front, path, auth) && Filter(back, path, auth) {
      forall i | 0 <= i < |r.matches|
        ensures Holds(r.matches[i], path, auth)
      {
        assert r.matches[i] == if i < k then front.matches[i] else back.matches[i - k];
      }
    }
    if Filter(r, path, auth) {
      forall i | 0 <= i < |back.matches|
        ensures Holds(back.matches[i], path, auth)
      {
        assert back.matches[i] == r.matches[k + i];
      }
    }
    if i :| 0 <= i < |r.matches| && r.matches[i].Authorization? && auth.None? {
      assert !Holds(r.matches[i], path, auth);
    }
  }

  /**
   The flags mean what they say, for all flags and all requests: the compiled rules accept exactly
   the requests whose path is among the prefixes, if there are any, and whose destination is among
   the destinations, if there are any; and the rule returned is the first with that path.
   */
  lemma CompiledRulesMean(parseIp: ParseIp, prefixes: seq<string>, restrictTo: seq<(string, Port)>,
                          remote: RemoteAddr, path: string, auth: Option<string>)
    requires ValidRemote(remote)
    ensures var rules := FromPathPrefix(parseIp, prefixes, restrictTo);
            && ValidRules(rules)
            && var r := ValidateTunnel(remote, path, auth, rules);
               && (r.Some? <==> PathAllowed(prefixes, path) && DestinationAllowed(parseIp, restrictTo, remote))
               && (r.Some? && prefixes == [] ==> r.value == 0)
               && (r.Some? && prefixes != [] ==>
                     r.value < |prefixes| && prefixes[r.value] == path && path !in prefixes[..r.value])
  {
    hide DestinationAllowed;
    hide IsAllowed;
    var rules := FromPathPrefix(parseIp, prefixes, restrictTo);
    CompiledDestinationsMean(parseIp, restrictTo, remote);
    forall i | 0 <= i < |rules|
      ensures ValidRestriction(rules[i])
      ensures Accepts(rules[i], remote, path, auth) <==>
              (prefixes == [] || prefixes[i] == path) && DestinationAllowed(parseIp, restrictTo, remote)
    {
      OneMatch(rules[i], path, auth);
    }
  }

  lemma OneMatch(r: Restriction, path: string, auth: Option<string>)
    requires |r.matches| == 1
    ensures Filter(r, path, auth) <==> Holds(r.matches[0], path, auth)
  {
  }

  /** No port is mapped by rules that come from the flags. */
  lemma CompiledRulesMapNothing(parseIp: ParseIp, prefixes: seq<string>, restrictTo: seq<(string, Port)>, i: nat,
          port: Port)
    requires i < |FromPathPrefix(parseIp, prefixes, restrictTo)|
    ensures MappedPort(port, FromPathPrefix(parseIp, prefixes, restrictTo)[i].allow) == port
  {
    var allow := CompileDestinations(parseIp, restrictTo);
    assert FromPathPrefix(parseIp, prefixes, restrictTo)[i].allow == allow;
    forall k | 0 <= k < |allow|
      ensures !Maps(allow[k], port)
    {
    }
    UnmappedPortStays(port, allow);
  }

  /**
   A host among the flags is the destination itself, for every request whose host is not the empty
   name; and without destinations everything is allowed but reverse tunnels on a name, for requests
   whose name and unix path are on one line.
   */
  lemma ProperHostsMatchExactly(parseIp: ParseIp, restrictTo: seq<(string, Port)>, remote: RemoteAddr)
    requires restrictTo != [] ==> remote.host != Domain("")
    requires restrictTo == [] && remote.host.Domain? ==> OneLine(remote.host.name)
    requires restrictTo == [] && remote.protocol.ReverseUnix? && remote.protocol.path.Some? ==>
              OneLine(remote.protocol.path.value)
    ensures DestinationAllowed(parseIp, restrictTo, remote) <==>
            if restrictTo == [] then !IsReverse(remote.protocol) || remote.protocol.ReverseUnix? || remote.host.Address?
            else !IsReverse(remote.protocol) &&
                 exists i :: 0 <= i < |restrictTo| &&
                             restrictTo[i].1 == remote.port && HostOf(parseIp, restrictTo[i].0) == remote.host
  {
  }

  function HostOf(parseIp: ParseIp, host: string): Host {
    match parseIp(host)
    case Some(ip) => Address(ip)
    case None => Domain(host)
  }
}
