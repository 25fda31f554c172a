/** Flattening keeps the meaning of a policy: first match over the flat list is
    first match over blocks, rules and port lists. */
module FlattenMeaning {
  import opened Outcomes
  import opened Nets
  import opened PolicyIr
  import opened Flatten

  // ---- port lists -------------------------------------------------------

  predicate EntryPorts(r: PortRange, pkt: Packet) {
    r.hi == 0 || r.lo <= KernelPort(pkt) <= r.hi
  }

  /** What the flattened entries of a rule say about `pkt`'s port. */
  predicate KernelPorts(ports: seq<PortRange>, pkt: Packet) {
    ports == [] || exists i :: 0 <= i < |ports| && EntryPorts(ports[i], pkt)
  }

  predicate NoOpenEnd(ports: seq<PortRange>) {
    forall i :: 0 <= i < |ports| ==> ports[i].hi != 0
  }

  predicate Listed(ports: seq<PortRange>, p: Port) {
    exists i :: 0 <= i < |ports| && InRange(ports[i], p)
  }

  ghost predicate EveryPortListed(ports: seq<PortRange>) {
    forall p: Port :: Listed(ports, p)
  }

  predicate TouchesZero(ports: seq<PortRange>) {
    exists i :: 0 <= i < |ports| && (ports[i].hi == 0 || ports[i].lo == 0)
  }

  /** A port list the flat encoding can express. An upper bound of zero is read
      back as "any port", so such a range is only harmless when the list spans
      every port anyway; and because an icmp packet is tested as port zero, a
      rule that also admits icmp must have a range reaching down to zero. */
  ghost predicate PortsFaithful(r: IrRule) {
    || r.ports == []
    || (&& (r.proto != Icmp ==> NoOpenEnd(r.ports) || EveryPortListed(r.ports))
        && (r.proto == Icmp || r.proto == Any ==> TouchesZero(r.ports)))
  }

  function PacketFor(src: Addr, dst: Addr, proto: Proto, p: Port): (pkt: Packet)
    ensures ProtoMatches(proto, pkt.proto)
    ensures proto != Icmp ==> HasPorts(pkt) && pkt.dport == p
  {
    match proto
    case Udp => Packet(src, dst, UDP, p)
    case Icmp => Packet(src, dst, ICMP, 0)
    case _ => Packet(src, dst, TCP, p)
  }

  lemma PortsAgree(r: IrRule, pkt: Packet)
    requires PortsFaithful(r) && ProtoMatches(r.proto, pkt.proto)
    ensures KernelPorts(r.ports, pkt) <==> PortsMatch(r.ports, pkt)
  {
    if r.ports != [] && HasPorts(pkt) {
      if NoOpenEnd(r.ports) {
        if KernelPorts(r.ports, pkt) {
          var i :| 0 <= i < |r.ports| && EntryPorts(r.ports[i], pkt);
          assert InRange(r.ports[i], pkt.dport);
        }
        if PortsMatch(r.ports, pkt) {
          var i :| 0 <= i < |r.ports| && InRange(r.ports[i], pkt.dport);
          assert EntryPorts(r.ports[i], pkt);
        }
      } else {
        assert Listed(r.ports, pkt.dport);
        var i :| 0 <= i < |r.ports| && InRange(r.ports[i], pkt.dport);
        assert EntryPorts(r.ports[i], pkt);
      }
    } else if r.ports != [] {
      var i :| 0 <= i < |r.ports| && (r.ports[i].hi == 0 || r.ports[i].lo == 0);
      assert EntryPorts(r.ports[i], pkt);
    }
  }

  /** The condition is exact: outside it, some packet of the rule's own protocol
      from any given pair of addresses is judged differently. */
  lemma PortsDisagree(r: IrRule, src: Addr, dst: Addr) returns (pkt: Packet)
    requires !PortsFaithful(r)
    ensures pkt.src == src && pkt.dst == dst && ProtoMatches(r.proto, pkt.proto)
    ensures KernelPorts(r.ports, pkt) != PortsMatch(r.ports, pkt)
  {
    if r.proto != Icmp && !NoOpenEnd(r.ports) && !EveryPortListed(r.ports) {
      var p: Port :| !Listed(r.ports, p);
      pkt := PacketFor(src, dst, r.proto, p);
      var i :| 0 <= i < |r.ports| && r.ports[i].hi == 0;
      assert EntryPorts(r.ports[i], pkt);
    } else {
      pkt := Packet(src, dst, ICMP, 0);
    }
  }

  // ---- first match over concatenations ----------------------------------

  /** First match over a flat list, as the verdict it yields. */
  function Scan(flat: seq<FlatRule>, pkt: Packet): Option<Verdict> {
    if flat == [] then None
    else if FlatMatches(flat[0], pkt) then Some(Decided(flat[0].action, flat[0].ruleId))
    else Scan(flat[1..], pkt)
  }

  function OrElse(a: Option<Verdict>, b: Option<Verdict>): Option<Verdict> {
    if a.Some? then a else b
  }

  lemma {:induction false} ScanConcat(a: seq<FlatRule>, b: seq<FlatRule>, pkt: Packet)
    ensures Scan(a + b, pkt) == OrElse(Scan(a, pkt), Scan(b, pkt))
  {
    if a == [] {
      assert a + b == b;
    } else {
      assert (a + b)[1..] == a[1..] + b;
      ScanConcat(a[1..], b, pkt);
    }
  }

  lemma {:induction false} ScanIgnoresPosition(a: seq<FlatRule>, b: seq<FlatRule>, pkt: Packet)
    requires |a| == |b|
    requires forall i :: 0 <= i < |a| ==> a[i] == b[i].(idx := a[i].idx)
    ensures Scan(a, pkt) == Scan(b, pkt)
  {
    if a == [] {
    } else {
      assert a[0] == b[0].(idx := a[0].idx);
      ScanIgnoresPosition(a[1..], b[1..], pkt);
    }
  }

  lemma {:induction false} ScanIsFirstFlat(flat: seq<FlatRule>, from: nat, pkt: Packet)
    requires from <= |flat|
    ensures var i := FirstFlat(flat, from, pkt);
            Scan(flat[from..], pkt) ==
              if i < |flat| then Some(Decided(flat[i].action, flat[i].ruleId)) else None
    decreases |flat| - from
  {
    if from < |flat| && !FlatMatches(flat[from], pkt) {
      assert flat[from..][1..] == flat[from + 1..];
      ScanIsFirstFlat(flat, from + 1, pkt);
    }
  }

  // ---- one rule ---------------------------------------------------------

  lemma {:induction false} NetsHoldWhatTextsHold(texts: seq<CidrText>, a: Addr)
    ensures SideHolds(NetsOf(texts), a) <==> ListHolds(texts, a)
  {
    if texts == [] {
    } else {
      NetsHoldWhatTextsHold(texts[1..], a);
      var rest := NetsOf(texts[1..]);
      var nets := NetsOf(texts);
      assert nets == if texts[0].Cidr? then [texts[0].net] + rest else rest;
      if ListHolds(texts, a) {
        var i :| 0 <= i < |texts| && texts[i].Cidr? && Holds(texts[i].net, a);
        if i == 0 {
          assert Holds(nets[0], a);
        } else {
          assert texts[1..][i - 1] == texts[i];
          var k :| 0 <= k < |rest| && Holds(rest[k], a);
          assert nets[k + (|nets| - |rest|)] == rest[k];
        }
      }
      if SideHolds(nets, a) {
        var k :| 0 <= k < |nets| && Holds(nets[k], a);
        if texts[0].Cidr? && k == 0 {
          assert Holds(texts[0].net, a);
        } else {
          assert rest[k - (|nets| - |rest|)] == nets[k];
          var i :| 0 <= i < |texts[1..]| && texts[1..][i].Cidr? && Holds(texts[1..][i].net, a);
          assert texts[i + 1] == texts[1..][i];
        }
      }
    }
  }

  /** The entries of one rule match exactly when some port range admits the
      packet, and they all carry the rule's own action and id. */
  lemma {:induction false} ScanExploded(r: IrRule, src: seq<Net>, dst: seq<Net>, ports: seq<PortRange>, pkt: Packet)
    ensures Scan(Explode(r, src, dst, ports), pkt) ==
              if SideHolds(src, pkt.src) && SideHolds(dst, pkt.dst) && ProtoMatches(r.proto, pkt.proto)
                 && exists i :: 0 <= i < |ports| && EntryPorts(ports[i], pkt)
              then Some(Decided(r.action, r.ruleId)) else None
  {
    if ports == [] {
    } else {
      ScanExploded(r, src, dst, ports[1..], pkt);
      assert ports == [ports[0]] + ports[1..];
      assert Explode(r, src, dst, ports)[1..] == Explode(r, src, dst, ports[1..]);
      assert (exists i :: 0 <= i < |ports| && EntryPorts(ports[i], pkt))
          <==> EntryPorts(ports[0], pkt) || exists i :: 0 <= i < |ports[1..]| && EntryPorts(ports[1..][i], pkt) by {
        if exists i :: 0 <= i < |ports| && EntryPorts(ports[i], pkt) {
          var i :| 0 <= i < |ports| && EntryPorts(ports[i], pkt);
          if i > 0 { assert EntryPorts(ports[1..][i - 1], pkt); }
        }
        if exists i :: 0 <= i < |ports[1..]| && EntryPorts(ports[1..][i], pkt) {
          var i :| 0 <= i < |ports[1..]| && EntryPorts(ports[1..][i], pkt);
          assert EntryPorts(ports[i + 1], pkt);
        }
      }
    }
  }

  predicate AddressesMatch(b: IrBlock, r: IrRule, pkt: Packet) {
    && ListHolds(Effective(r.src, b.srcCidrs), pkt.src)
    && ListHolds(Effective(r.dst, b.dstCidrs), pkt.dst)
    && ProtoMatches(r.proto, pkt.proto)
  }

  lemma ScanExpandedRule(b: IrBlock, r: IrRule, pkt: Packet)
    ensures Scan(ExpandRule(b, r), pkt) ==
              if AddressesMatch(b, r, pkt) && KernelPorts(r.ports, pkt)
              then Some(Decided(r.action, r.ruleId)) else None
  {
    NetsHoldWhatTextsHold(SideTexts(b, r, Src), pkt.src);
    NetsHoldWhatTextsHold(SideTexts(b, r, Dst), pkt.dst);
    var ports := if r.ports == [] then [PortRange(0, 0)] else r.ports;
    ScanExploded(r, RuleNets(b, r, Src), RuleNets(b, r, Dst), ports, pkt);
    assert r.ports == [] ==> EntryPorts(ports[0], pkt);
  }

  // ---- the whole policy -------------------------------------------------

  ghost predicate Faithful(blocks: seq<IrBlock>) {
    forall i, j :: 0 <= i < |blocks| && 0 <= j < |blocks[i].rules| ==> PortsFaithful(blocks[i].rules[j])
  }

  lemma {:induction false} ScanRules(b: IrBlock, rules: seq<IrRule>, pkt: Packet)
    requires forall j :: 0 <= j < |rules| ==> PortsFaithful(rules[j])
    ensures Scan(ExpandRules(b, rules), pkt) == FirstInRules(b, rules, pkt)
  {
    if rules == [] {
    } else {
      ScanConcat(ExpandRule(b, rules[0]), ExpandRules(b, rules[1..]), pkt);
      ScanExpandedRule(b, rules[0], pkt);
      if ProtoMatches(rules[0].proto, pkt.proto) {
        PortsAgree(rules[0], pkt);
      }
      ScanRules(b, rules[1..], pkt);
    }
  }

  lemma {:induction false} ScanBlocks(blocks: seq<IrBlock>, pkt: Packet)
    requires Faithful(blocks)
    ensures Scan(ExpandBlocks(blocks), pkt) == FirstInBlocks(blocks, pkt)
  {
    if blocks == [] {
    } else {
      var b := blocks[0];
      ScanConcat(ExpandRules(b, b.rules), ExpandBlocks(blocks[1..]), pkt);
      ScanRules(b, b.rules, pkt);
      assert forall i :: 0 <= i < |blocks[1..]| ==> blocks[1..][i] == blocks[i + 1];
      ScanBlocks(blocks[1..], pkt);
    }
  }

  lemma VerdictIsScan(blocks: seq<IrBlock>, pkt: Packet)
    ensures var s := Scan(ExpandBlocks(blocks), pkt);
            FlatVerdict(Indexed(ExpandBlocks(blocks)), pkt) == if s.Some? then s.value else DefaultDeny
  {
    var flat := Indexed(ExpandBlocks(blocks));
    ScanIgnoresPosition(flat, ExpandBlocks(blocks), pkt);
    ScanIsFirstFlat(flat, 0, pkt);
    assert flat[0..] == flat;
  }

  /** The flat list `FlattenPolicy` returns decides every packet as the policy
      does: same action, same rule id, same default deny. */
  lemma FlatteningPreservesMeaning(blocks: seq<IrBlock>, pkt: Packet)
    requires Faithful(blocks)
    ensures FlatVerdict(Indexed(ExpandBlocks(blocks)), pkt) == Meaning(blocks, pkt)
  {
    VerdictIsScan(blocks, pkt);
    ScanBlocks(blocks, pkt);
  }

  /** For a policy of a single rule the port condition is also necessary: the
      flat list agrees with the policy on every packet iff the rule's port list
      is one the flat encoding can express. */
  lemma SingleRuleExact(b: IrBlock)
    requires |b.rules| == 1 && RuleOk(b, b.rules[0])
    ensures (forall pkt :: FlatVerdict(Indexed(ExpandBlocks([b])), pkt) == Meaning([b], pkt))
            <==> PortsFaithful(b.rules[0])
  {
    var r := b.rules[0];
    if PortsFaithful(r) {
      forall pkt ensures FlatVerdict(Indexed(ExpandBlocks([b])), pkt) == Meaning([b], pkt) {
        FlatteningPreservesMeaning([b], pkt);
      }
    } else {
      var srcs, dsts := SideTexts(b, r, Src), SideTexts(b, r, Dst);
      assert srcs[0] in srcs && dsts[0] in dsts;
      var pkt := PortsDisagree(r, srcs[0].net.addr, dsts[0].net.addr);
      assert Holds(srcs[0].net, pkt.src) && Holds(dsts[0].net, pkt.dst);
      VerdictIsScan([b], pkt);
      assert b.rules == [r];
      ScanConcat(ExpandRule(b, r), [], pkt);
      ScanExpandedRule(b, r, pkt);
      assert ExpandBlocks([b]) == ExpandRule(b, r) + [];
      assert FirstInRules(b, [r][1..], pkt) == None;
      assert FirstInBlocks([b][1..], pkt) == None;
      assert FlatVerdict(Indexed(ExpandBlocks([b])), pkt) != Meaning([b], pkt);
    }
  }

  /** What the policy compiler admits: ports only with tcp or udp, each range
      inside 1..65535 and not inverted. */
  predicate CompilerPorts(r: IrRule) {
    r.ports != [] ==>
      && (r.proto == Tcp || r.proto == Udp)
      && forall i :: 0 <= i < |r.ports| ==> 1 <= r.ports[i].lo <= r.ports[i].hi
  }

  predicate CompilerPolicy(blocks: seq<IrBlock>) {
    forall i, j :: 0 <= i < |blocks| && 0 <= j < |blocks[i].rules| ==> CompilerPorts(blocks[i].rules[j])
  }

  lemma CompiledIsFaithful(blocks: seq<IrBlock>)
    requires CompilerPolicy(blocks)
    ensures Faithful(blocks)
  {
    forall i, j | 0 <= i < |blocks| && 0 <= j < |blocks[i].rules|
      ensures PortsFaithful(blocks[i].rules[j])
    {
      assert CompilerPorts(blocks[i].rules[j]);
    }
  }

  /** A policy of one rule, from one network to another. */
  function OneRule(src: Net, dst: Net, proto: Proto, ports: seq<PortRange>): IrBlock {
    IrBlock([Cidr(src)], [Cidr(dst)], [IrRule("r", Allow, proto, [], [], ports)])
  }

  lemma SingleRuleLimits(b: IrBlock)
    requires |b.rules| == 1 && BlockOk(b) && Weight(b.rules[0]) <= MAX_RULES
    requires |Elems(RuleNets(b, b.rules[0], Src))| <= LPM_MAX_ENTRIES
    requires |Elems(RuleNets(b, b.rules[0], Dst))| <= LPM_MAX_ENTRIES
    ensures Flattenable([b])
  {
    var r := b.rules[0];
    assert [b][1..] == [] && b.rules[1..] == [];
    assert RulesWeight(b.rules) == Weight(r) + RulesWeight([]);
    assert BlocksWeight([b]) == RulesWeight(b.rules) + BlocksWeight([]);
    forall side ensures NetSet([b], side) == Elems(RuleNets(b, r, side)) {
      assert RulesNetSet(b, b.rules, side) == Elems(RuleNets(b, r, side)) + {};
      assert NetSet([b], side) == RulesNetSet(b, b.rules, side) + {};
    }
  }

  lemma OneRuleAccepted(src: Net, dst: Net, proto: Proto, ports: seq<PortRange>)
    requires |ports| <= MAX_RULES
    ensures Flattenable([OneRule(src, dst, proto, ports)])
  {
    var b := OneRule(src, dst, proto, ports);
    assert b.rules[1..] == [] && b.srcCidrs[1..] == [] && b.dstCidrs[1..] == [];
    assert NetsOf(b.srcCidrs) == [src] && NetsOf(b.dstCidrs) == [dst];
    assert RuleOk(b, b.rules[0]) && RulesOk(b, []);
    assert Elems([src]) == {src} && Elems([dst]) == {dst};
    SingleRuleLimits(b);
  }

  lemma OneRuleVerdict(src: Net, dst: Net, proto: Proto, ports: seq<PortRange>, pkt: Packet)
    requires pkt.src == src.addr && pkt.dst == dst.addr && ProtoMatches(proto, pkt.proto)
    ensures FlatVerdict(Indexed(ExpandBlocks([OneRule(src, dst, proto, ports)])), pkt) ==
              if KernelPorts(ports, pkt) then Decided(Allow, "r") else DefaultDeny
    ensures Meaning([OneRule(src, dst, proto, ports)], pkt) ==
              if PortsMatch(ports, pkt) then Decided(Allow, "r") else DefaultDeny
  {
    var b := OneRule(src, dst, proto, ports);
    assert Holds(b.srcCidrs[0].net, pkt.src) && Holds(b.dstCidrs[0].net, pkt.dst);
    assert AddressesMatch(b, b.rules[0], pkt);
    VerdictIsScan([b], pkt);
    ScanConcat(ExpandRule(b, b.rules[0]), [], pkt);
    ScanExpandedRule(b, b.rules[0], pkt);
    assert ExpandBlocks([b]) == ExpandRule(b, b.rules[0]) + [];
    assert FirstInRules(b, b.rules[1..], pkt) == None;
    assert FirstInBlocks([b][1..], pkt) == None;
  }

  /** Off the wire it can fail. A rule for the tcp port range (0, 0) is stored
      exactly like "no ports", so the flat list accepts port 80; the policy is
      accepted by the flattener all the same. */
  lemma ExplicitZeroRangeWidens(src: Net, dst: Net)
    ensures var blocks := [OneRule(src, dst, Tcp, [PortRange(0, 0)])];
            var pkt := Packet(src.addr, dst.addr, TCP, 80);
            && Flattenable(blocks)
            && Meaning(blocks, pkt) == DefaultDeny
            && FlatVerdict(Indexed(ExpandBlocks(blocks)), pkt) == Decided(Allow, "r")
  {
    var ports := [PortRange(0, 0)];
    var pkt := Packet(src.addr, dst.addr, TCP, 80);
    OneRuleAccepted(src, dst, Tcp, ports);
    OneRuleVerdict(src, dst, Tcp, ports, pkt);
    assert EntryPorts(ports[0], pkt);
    assert !PortsMatch(ports, pkt);
  }
}
