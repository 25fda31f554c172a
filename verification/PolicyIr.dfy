/** The compiled policy a gateway receives, the flattened form both enforcement
    backends work from, and the meaning of the former: plain first match over
    blocks, rules and port lists. */
module PolicyIr {
  import opened Outcomes
  import opened Nets

  const MAX_RULES: nat := 256
  const LPM_MAX_ENTRIES: nat := 1024

  /** The counter slot of packets no rule matched, just past the last rule's. */
  const CTR_DEFAULT_DENY: nat := MAX_RULES

  type Port = p: nat | p < 65536

  datatype Action = Allow | Deny

  datatype Proto = Tcp | Udp | Icmp | Any

  /** A CIDR string as it arrives off the wire, by what parsing it yields. */
  datatype CidrText = Cidr(net: Net) | Malformed

  datatype PortRange = PortRange(lo: Port, hi: Port)

  datatype IrRule = IrRule(
    ruleId: string, action: Action, proto: Proto,
    src: seq<CidrText>, dst: seq<CidrText>, ports: seq<PortRange>)

  datatype IrBlock = IrBlock(srcCidrs: seq<CidrText>, dstCidrs: seq<CidrText>, rules: seq<IrRule>)

  datatype FlatRule = FlatRule(
    idx: nat, ruleId: string, action: Action, proto: Proto,
    src: seq<Net>, dst: seq<Net>, lo: Port, hi: Port)

  /** `proto` is the IP protocol number; `dport` is meaningful for tcp and udp. */
  datatype Packet = Packet(src: Addr, dst: Addr, proto: nat, dport: Port)

  const TCP: nat := 6
  const UDP: nat := 17
  const ICMP: nat := 1

  datatype Verdict = Decided(action: Action, ruleId: string) | DefaultDeny

  // ---- the meaning of a policy ------------------------------------------

  predicate HasPorts(pkt: Packet) {
    pkt.proto == TCP || pkt.proto == UDP
  }

  predicate ProtoMatches(proto: Proto, number: nat) {
    match proto
    case Tcp => number == TCP
    case Udp => number == UDP
    case Icmp => number == ICMP
    case Any => number == TCP || number == UDP || number == ICMP
  }

  /** A rule's own list, or the block's when the rule has none. */
  function Effective(own: seq<CidrText>, block: seq<CidrText>): seq<CidrText> {
    if own == [] then block else own
  }

  predicate ListHolds(cidrs: seq<CidrText>, a: Addr) {
    exists i :: 0 <= i < |cidrs| && cidrs[i].Cidr? && Holds(cidrs[i].net, a)
  }

  predicate InRange(r: PortRange, p: Port) {
    r.lo <= p <= r.hi
  }

  /** A port list restricts tcp and udp; no list means every port. */
  predicate PortsMatch(ports: seq<PortRange>, pkt: Packet) {
    ports == [] || !HasPorts(pkt) || exists i :: 0 <= i < |ports| && InRange(ports[i], pkt.dport)
  }

  predicate RuleMatches(b: IrBlock, r: IrRule, pkt: Packet) {
    && ListHolds(Effective(r.src, b.srcCidrs), pkt.src)
    && ListHolds(Effective(r.dst, b.dstCidrs), pkt.dst)
    && ProtoMatches(r.proto, pkt.proto)
    && PortsMatch(r.ports, pkt)
  }

  function FirstInRules(b: IrBlock, rules: seq<IrRule>, pkt: Packet): Option<Verdict> {
    if rules == [] then None
    else if RuleMatches(b, rules[0], pkt) then Some(Decided(rules[0].action, rules[0].ruleId))
    else FirstInRules(b, rules[1..], pkt)
  }

  function FirstInBlocks(blocks: seq<IrBlock>, pkt: Packet): Option<Verdict> {
    if blocks == [] then None
    else
      match FirstInRules(blocks[0], blocks[0].rules, pkt)
      case Some(v) => Some(v)
      case None => FirstInBlocks(blocks[1..], pkt)
  }

  /** What the policy says about `pkt`. */
  function Meaning(blocks: seq<IrBlock>, pkt: Packet): Verdict {
    match FirstInBlocks(blocks, pkt)
    case Some(v) => v
    case None => DefaultDeny
  }

  // ---- the flattened list, matched linearly -----------------------------

  predicate SideHolds(nets: seq<Net>, a: Addr) {
    exists i :: 0 <= i < |nets| && Holds(nets[i], a)
  }

  /** The destination port as the kernel program reads it: zero for anything
      that is not tcp or udp. */
  function KernelPort(pkt: Packet): Port {
    if HasPorts(pkt) then pkt.dport else 0
  }

  /** The kernel's residual test on a rule, once its CIDRs are known to match.
      An upper bound of zero means "any port". */
  predicate MetaMatches(f: FlatRule, pkt: Packet) {
    ProtoMatches(f.proto, pkt.proto) && (f.hi == 0 || f.lo <= KernelPort(pkt) <= f.hi)
  }

  predicate FlatMatches(f: FlatRule, pkt: Packet) {
    SideHolds(f.src, pkt.src) && SideHolds(f.dst, pkt.dst) && MetaMatches(f, pkt)
  }

  /** The first rule of `flat` at or after `from` that matches, `|flat|` if none. */
  function FirstFlat(flat: seq<FlatRule>, from: nat, pkt: Packet): (i: nat)
    requires from <= |flat|
    ensures from <= i <= |flat|
    ensures forall k :: from <= k < i ==> !FlatMatches(flat[k], pkt)
    ensures i < |flat| ==> FlatMatches(flat[i], pkt)
    decreases |flat| - from
  {
    if from == |flat| || FlatMatches(flat[from], pkt) then from
    else FirstFlat(flat, from + 1, pkt)
  }

  function FlatVerdict(flat: seq<FlatRule>, pkt: Packet): Verdict {
    var i := FirstFlat(flat, 0, pkt);
    if i < |flat| then Decided(flat[i].action, flat[i].ruleId) else DefaultDeny
  }
}
