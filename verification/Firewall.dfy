/**
 The captive_portal nftables table: the prerouting and forward chains as ordered
 rule lists, evaluated first match first, and the closed conditions they come to.
 */
module Firewall {
  import opened PortalState

  datatype Protocol = Tcp | Udp | OtherProtocol

  /** `first` is the packet the NAT hook sees: the first one of its connection. */
  datatype Packet = Packet(
    saddr: Ip, daddr: Ip, protocol: Protocol, dport: nat, smac: Mac,
    conn: Connection, established: bool, first: bool)

  datatype AddressSet = Whitelist | DnsBypass

  datatype Match =
    | EstablishedOrRelated
    | SaddrIn(which: AddressSet)
    | SaddrNotIn(which: AddressSet)
    | DaddrIs(ip: Ip)
    | DaddrIsDoh
    | TcpDport(port: nat)
    | UdpDport(port: nat)
    | EtherSaddrBypassed
    | CtMarked
    | IsIpv4

  datatype Verdict = Accept | Drop | Reject | MarkAndAccept | Dnat(ip: Ip, port: nat)

  datatype Rule = Rule(matches: seq<Match>, verdict: Verdict)

  const DOH_SERVERS: set<Ip> := {
    V4(8, 8, 8, 8), V4(8, 8, 4, 4), V4(1, 1, 1, 1), V4(1, 0, 0, 1),
    V4(9, 9, 9, 9), V4(149, 112, 112, 112), V4(208, 67, 222, 222), V4(208, 67, 220, 220)
  }

  function Prerouting(portal: Ip, port: nat): seq<Rule> {
    [ Rule([SaddrIn(DnsBypass), UdpDport(53)], Dnat(portal, 5354)),
      Rule([SaddrIn(DnsBypass), TcpDport(53)], Dnat(portal, 5354)),
      Rule([SaddrNotIn(DnsBypass), UdpDport(53)], Dnat(portal, 53)),
      Rule([SaddrNotIn(DnsBypass), TcpDport(53)], Dnat(portal, 53)),
      Rule([EtherSaddrBypassed], MarkAndAccept),
      Rule([DaddrIs(portal), TcpDport(80)], Dnat(portal, port)),
      Rule([DaddrIs(portal), TcpDport(443)], Dnat(portal, 8443)),
      Rule([SaddrNotIn(Whitelist), TcpDport(80)], Dnat(portal, port)) ]
  }

  function Forward(): seq<Rule> {
    [ Rule([EstablishedOrRelated], Accept),
      Rule([SaddrIn(DnsBypass), DaddrIsDoh, TcpDport(443)], Reject),
      Rule([SaddrIn(Whitelist)], Accept),
      Rule([CtMarked], Accept),
      Rule([TcpDport(443)], Reject),
      Rule([IsIpv4], Reject) ]
  }

  function Members(s: State, which: AddressSet): set<Ip> {
    match which
    case Whitelist => s.whitelist
    case DnsBypass => s.dnsBypass
  }

  /** A test on an IPv4 field, negated or not, only ever matches an IPv4 packet. */
  predicate Matches(s: State, p: Packet, m: Match) {
    match m
    case EstablishedOrRelated => p.established
    case SaddrIn(which) => p.saddr.V4? && p.saddr in Members(s, which)
    case SaddrNotIn(which) => p.saddr.V4? && p.saddr !in Members(s, which)
    case DaddrIs(ip) => p.daddr.V4? && p.daddr == ip
    case DaddrIsDoh => p.daddr in DOH_SERVERS
    case TcpDport(port) => p.protocol == Tcp && p.dport == port
    case UdpDport(port) => p.protocol == Udp && p.dport == port
    case EtherSaddrBypassed => p.smac in s.macBypass
    case CtMarked => p.conn in s.marked
    case IsIpv4 => p.saddr.V4?
  }

  predicate MatchesAll(s: State, p: Packet, ms: seq<Match>) {
    ms == [] || (Matches(s, p, ms[0]) && MatchesAll(s, p, ms[1..]))
  }

  /** First match wins; a chain none of whose rules match falls to its policy. */
  function Evaluate(s: State, p: Packet, rules: seq<Rule>, policy: Verdict): Verdict
    decreases |rules|
  {
    if rules == [] then policy
    else if MatchesAll(s, p, rules[0].matches) then rules[0].verdict
    else Evaluate(s, p, rules[1..], policy)
  }

  datatype Fate = Local | Forwarded | Blocked

  /** The marked set after the NAT hook has seen the packet. */
  function MarkedBy(s: State, p: Packet, portal: Ip, port: nat): set<Connection> {
    if s.loaded && p.first && !p.established
       && Evaluate(s, p, Prerouting(portal, port), Accept) == MarkAndAccept
    then s.marked + {p.conn} else s.marked
  }

  /** What happens to a client's packet: prerouting, then routing, then the forward chain. */
  function FateOf(s: State, p: Packet, portal: Ip, port: nat): Fate {
    var pre := Evaluate(s, p, Prerouting(portal, port), Accept);
    if p.daddr == portal || (s.loaded && p.first && !p.established && pre.Dnat?) then Local
    else if !s.loaded then Forwarded
    else
      var after := s.(marked := MarkedBy(s, p, portal, port));
      if Evaluate(after, p, Forward(), Drop) == Accept then Forwarded else Blocked
  }

  // ---- The closed conditions ----

  predicate Whitelisted(s: State, p: Packet) {
    p.saddr.V4? && p.saddr in s.whitelist
  }

  predicate DohBlocked(s: State, p: Packet) {
    p.saddr.V4? && p.saddr in s.dnsBypass && p.daddr in DOH_SERVERS && p.protocol == Tcp && p.dport == 443
  }

  predicate PlainDns(p: Packet) {
    p.saddr.V4? && p.protocol != OtherProtocol && p.dport == 53
  }

  /** Evaluation from rule i on: rule i if it matches, else from rule i + 1 on. */
  lemma EvaluateAt(s: State, p: Packet, rules: seq<Rule>, policy: Verdict, i: nat)
    requires i < |rules|
    ensures Evaluate(s, p, rules[i..], policy) ==
            if MatchesAll(s, p, rules[i].matches) then rules[i].verdict else Evaluate(s, p, rules[i + 1..], policy)
  {
    assert rules[i..][0] == rules[i] && rules[i..][1..] == rules[i + 1..];
  }

  /** The six forward rules, read in order, come to one condition. */
  lemma ForwardChain(s: State, p: Packet)
    ensures Evaluate(s, p, Forward(), Drop) == Accept
            <==> p.established || (!DohBlocked(s, p) && (Whitelisted(s, p) || p.conn in s.marked))
  {
    var rules := Forward();
    assert MatchesAll(s, p, rules[0].matches) == p.established;
    assert MatchesAll(s, p, rules[1].matches) == DohBlocked(s, p) by { MatchThree(s, p, rules[1].matches); }
    assert MatchesAll(s, p, rules[2].matches) == Whitelisted(s, p);
    assert MatchesAll(s, p, rules[3].matches) == (p.conn in s.marked);
    assert rules[0..] == rules && rules[6..] == [];
    EvaluateAt(s, p, rules, Drop, 0);
    EvaluateAt(s, p, rules, Drop, 1);
    EvaluateAt(s, p, rules, Drop, 2);
    EvaluateAt(s, p, rules, Drop, 3);
    EvaluateAt(s, p, rules, Drop, 4);
    EvaluateAt(s, p, rules, Drop, 5);
  }

  lemma MatchThree(s: State, p: Packet, ms: seq<Match>)
    requires |ms| == 3
    ensures MatchesAll(s, p, ms) == (Matches(s, p, ms[0]) && Matches(s, p, ms[1]) && Matches(s, p, ms[2]))
  {
    assert MatchesAll(s, p, ms[1..]) == (Matches(s, p, ms[1]) && MatchesAll(s, p, ms[1..][1..]));
    assert MatchesAll(s, p, ms[1..][1..]) == Matches(s, p, ms[2]);
  }

  lemma MatchTwo(s: State, p: Packet, ms: seq<Match>)
    requires |ms| == 2
    ensures MatchesAll(s, p, ms) == (Matches(s, p, ms[0]) && Matches(s, p, ms[1]))
  {
    assert MatchesAll(s, p, ms[1..]) == Matches(s, p, ms[1]);
  }

  predicate OnPort(p: Packet, protocol: Protocol, port: nat) {
    p.protocol == protocol && p.dport == port
  }

  lemma PreroutingTests(s: State, p: Packet, portal: Ip, port: nat)
    ensures var rules := Prerouting(portal, port);
            var bypassed := p.saddr.V4? && p.saddr in s.dnsBypass;
            var notBypassed := p.saddr.V4? && p.saddr !in s.dnsBypass;
            && MatchesAll(s, p, rules[0].matches) == (bypassed && OnPort(p, Udp, 53))
            && MatchesAll(s, p, rules[1].matches) == (bypassed && OnPort(p, Tcp, 53))
            && MatchesAll(s, p, rules[2].matches) == (notBypassed && OnPort(p, Udp, 53))
            && MatchesAll(s, p, rules[3].matches) == (notBypassed && OnPort(p, Tcp, 53))
            && MatchesAll(s, p, rules[4].matches) == (p.smac in s.macBypass)
            && MatchesAll(s, p, rules[5].matches) == (p.daddr.V4? && p.daddr == portal && OnPort(p, Tcp, 80))
            && MatchesAll(s, p, rules[6].matches) == (p.daddr.V4? && p.daddr == portal && OnPort(p, Tcp, 443))
            && MatchesAll(s, p, rules[7].matches) == (p.saddr.V4? && p.saddr !in s.whitelist && OnPort(p, Tcp, 80))
  {
    var rules := Prerouting(portal, port);
    MatchTwo(s, p, rules[0].matches);
    MatchTwo(s, p, rules[1].matches);
    MatchTwo(s, p, rules[2].matches);
    MatchTwo(s, p, rules[3].matches);
    MatchTwo(s, p, rules[5].matches);
    MatchTwo(s, p, rules[6].matches);
    MatchTwo(s, p, rules[7].matches);
  }

  /** The verdict of the prerouting chain, decided without rules. */
  function PreroutingDecision(s: State, p: Packet, portal: Ip, port: nat): Verdict {
    if PlainDns(p) then Dnat(portal, if p.saddr in s.dnsBypass then 5354 else 53)
    else if p.smac in s.macBypass then MarkAndAccept
    else if p.protocol == Tcp && p.daddr.V4? && p.daddr == portal && p.dport == 443 then Dnat(portal, 8443)
    else if p.protocol == Tcp && p.dport == 80
            && ((p.daddr.V4? && p.daddr == portal) || (p.saddr.V4? && p.saddr !in s.whitelist)) then Dnat(portal, port)
    else Accept
  }

  /** The eight prerouting rules, read in order, come to that decision. */
  lemma PreroutingChain(s: State, p: Packet, portal: Ip, port: nat)
    ensures Evaluate(s, p, Prerouting(portal, port), Accept) == PreroutingDecision(s, p, portal, port)
  {
    var rules := Prerouting(portal, port);
    PreroutingTests(s, p, portal, port);
    assert rules[0..] == rules;
    EvaluateAt(s, p, rules, Accept, 0);
    EvaluateAt(s, p, rules, Accept, 1);
    EvaluateAt(s, p, rules, Accept, 2);
    EvaluateAt(s, p, rules, Accept, 3);
    AfterDnsRules(s, p, portal, port);
  }

  /** The four rules after the DNS ones. */
  lemma AfterDnsRules(s: State, p: Packet, portal: Ip, port: nat)
    ensures Evaluate(s, p, Prerouting(portal, port)[4..], Accept) ==
            if p.smac in s.macBypass then MarkAndAccept
            else if p.daddr.V4? && p.daddr == portal && OnPort(p, Tcp, 80) then Dnat(portal, port)
            else if p.daddr.V4? && p.daddr == portal && OnPort(p, Tcp, 443) then Dnat(portal, 8443)
            else if p.saddr.V4? && p.saddr !in s.whitelist && OnPort(p, Tcp, 80) then Dnat(portal, port)
            else Accept
  {
    var rules := Prerouting(portal, port);
    PreroutingTests(s, p, portal, port);
    assert rules[8..] == [];
    EvaluateAt(s, p, rules, Accept, 4);
    EvaluateAt(s, p, rules, Accept, 5);
    EvaluateAt(s, p, rules, Accept, 6);
    EvaluateAt(s, p, rules, Accept, 7);
  }

  /**
   A packet that opens a connection gets through a loaded firewall exactly when its
   sender is whitelisted or its connection is marked, less the DoH block and what
   the portal takes for itself.
   */
  lemma NewTrafficForwarded(s: State, p: Packet, portal: Ip, port: nat)
    requires s.loaded && !p.established
    ensures FateOf(s, p, portal, port) == Forwarded
            <==> && p.daddr != portal
                 && !(p.first && PreroutingDecision(s, p, portal, port).Dnat?)
                 && !DohBlocked(s, p)
                 && (Whitelisted(s, p) || p.conn in s.marked
                     || (p.first && p.smac in s.macBypass && !PlainDns(p)))
  {
    PreroutingChain(s, p, portal, port);
    ForwardChain(s.(marked := MarkedBy(s, p, portal, port)), p);
  }
}
