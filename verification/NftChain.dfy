/** The nftables backend: the chain generated from a flat list, how netfilter
    evaluates it for a packet of a new flow, and when it agrees with the eBPF
    backend and with the policy. */
module NftChain {
  import opened Outcomes
  import opened Nets
  import opened PolicyIr
  import opened Flatten
  import opened FlattenMeaning

  datatype L4Match = AnyPort(proto: nat) | DestPorts(proto: nat, lo: Port, hi: Port)

  datatype Line = Line(src: seq<Net>, dst: seq<Net>, l4: L4Match, counter: string, action: Action)

  predicate L4Matches(m: L4Match, pkt: Packet) {
    match m
    case AnyPort(proto) => pkt.proto == proto
    case DestPorts(proto, lo, hi) => pkt.proto == proto && lo <= pkt.dport <= hi
  }

  predicate LineMatches(l: Line, pkt: Packet) {
    SideHolds(l.src, pkt.src) && SideHolds(l.dst, pkt.dst) && L4Matches(l.l4, pkt)
  }

  /** nft refuses a port interval that runs backwards. */
  predicate Loadable(lines: seq<Line>) {
    forall i :: 0 <= i < |lines| ==> lines[i].l4.DestPorts? ==> lines[i].l4.lo <= lines[i].l4.hi
  }

  /** The chain's answer for a new flow: the first matching line's counter and
      verdict, else nothing (the closing `default_deny` line). */
  function FirstLine(lines: seq<Line>, pkt: Packet): Option<Line> {
    if lines == [] then None
    else if LineMatches(lines[0], pkt) then Some(lines[0])
    else FirstLine(lines[1..], pkt)
  }

  // ---- code generation --------------------------------------------------

  const DEFAULT_DENY: string := "default_deny"

  function CounterOf(ruleId: string): string {
    "r_" + ruleId
  }

  function ProtoMatch(proto: nat, lo: Port, hi: Port): L4Match {
    if lo == 0 && hi == 0 then AnyPort(proto) else DestPorts(proto, lo, hi)
  }

  function LineFor(f: FlatRule, proto: nat): Line {
    var ranged := proto != ICMP;
    Line(f.src, f.dst, ProtoMatch(proto, if ranged then f.lo else 0, if ranged then f.hi else 0),
         CounterOf(f.ruleId), f.action)
  }

  function Protos(p: Proto): seq<nat> {
    match p
    case Tcp => [TCP]
    case Udp => [UDP]
    case Icmp => [ICMP]
    case Any => [TCP, UDP, ICMP]
  }

  function RuleLines(f: FlatRule): seq<Line> {
    match f.proto
    case Tcp => [LineFor(f, TCP)]
    case Udp => [LineFor(f, UDP)]
    case Icmp => [LineFor(f, ICMP)]
    case Any => [LineFor(f, TCP), LineFor(f, UDP), LineFor(f, ICMP)]
  }

  function Chain(flat: seq<FlatRule>): seq<Line> {
    if flat == [] then [] else RuleLines(flat[0]) + Chain(flat[1..])
  }

  method WriteRuleLines(f: FlatRule) returns (lines: seq<Line>)
    ensures lines == RuleLines(f)
  {
    var protos := Protos(f.proto);
    lines := [];
    for i := 0 to |protos|
      invariant |lines| == i
      invariant forall k :: 0 <= k < i ==> lines[k] == LineFor(f, protos[k])
    {
      lines := lines + [LineFor(f, protos[i])];
    }
  }

  /** The generated table: one declared counter per rule id, in order of first
      appearance, and the chain, whose every line names a declared counter. No
      rule's counter can be mistaken for the default-deny one. */
  method Ruleset(flat: seq<FlatRule>) returns (counters: seq<string>, lines: seq<Line>)
    ensures lines == Chain(flat)
    ensures forall i, j :: 0 <= i < j < |counters| ==> counters[i] != counters[j]
    ensures forall c :: c in counters <==> exists i :: 0 <= i < |flat| && CounterOf(flat[i].ruleId) == c
    ensures DEFAULT_DENY !in counters
    ensures forall l :: l in lines ==> l.counter in counters
  {
    var ids := DistinctIds(flat);
    counters := [];
    for i := 0 to |ids|
      invariant |counters| == i
      invariant forall k :: 0 <= k < i ==> counters[k] == CounterOf(ids[k])
    {
      counters := counters + [CounterOf(ids[i])];
    }
    assert forall k :: 0 <= k < |counters| ==> counters[k][0] == 'r';
    assert DEFAULT_DENY[0] == 'd';
    forall i, j | 0 <= i < j < |counters| ensures counters[i] != counters[j] {
      CounterNamesDistinct(ids[i], ids[j]);
    }
    forall c ensures c in counters <==> exists i :: 0 <= i < |flat| && CounterOf(flat[i].ruleId) == c {
      if c in counters {
        var k :| 0 <= k < |counters| && counters[k] == c;
        assert ids[k] in ids;
      }
      if i :| 0 <= i < |flat| && CounterOf(flat[i].ruleId) == c {
        assert flat[i].ruleId in ids;
        var k :| 0 <= k < |ids| && ids[k] == flat[i].ruleId;
        assert counters[k] == c;
      }
    }
    lines := [];
    for i := 0 to |flat|
      invariant lines + Chain(flat[i..]) == Chain(flat)
    {
      var more := WriteRuleLines(flat[i]);
      assert flat[i..][1..] == flat[i + 1..];
      ConcatAssociates(lines, more, Chain(flat[i + 1..]));
      lines := lines + more;
    }
    assert lines + [] == lines;
    ChainCounters(flat);
  }

  lemma CounterNamesDistinct(a: string, b: string)
    requires a != b
    ensures CounterOf(a) != CounterOf(b)
  {
    assert CounterOf(a)[2..] == a && CounterOf(b)[2..] == b;
  }

  method DistinctIds(flat: seq<FlatRule>) returns (ids: seq<string>)
    ensures forall i, j :: 0 <= i < j < |ids| ==> ids[i] != ids[j]
    ensures forall id :: id in ids <==> exists i :: 0 <= i < |flat| && flat[i].ruleId == id
  {
    var seen: set<string> := {};
    ids := [];
    for i := 0 to |flat|
      invariant forall id :: id in seen <==> id in ids
      invariant forall k, j :: 0 <= k < j < |ids| ==> ids[k] != ids[j]
      invariant forall id :: id in ids <==> exists k :: 0 <= k < i && flat[k].ruleId == id
    {
      if flat[i].ruleId !in seen {
        seen := seen + {flat[i].ruleId};
        ids := ids + [flat[i].ruleId];
      }
    }
  }

  lemma {:induction false} ChainCounters(flat: seq<FlatRule>)
    ensures forall l :: l in Chain(flat) ==> exists i :: 0 <= i < |flat| && CounterOf(flat[i].ruleId) == l.counter
  {
    if flat == [] {
    } else {
      ChainCounters(flat[1..]);
      forall l | l in Chain(flat)
        ensures exists i :: 0 <= i < |flat| && CounterOf(flat[i].ruleId) == l.counter
      {
        if l in RuleLines(flat[0]) {
          assert CounterOf(flat[0].ruleId) == l.counter;
        } else {
          assert l in Chain(flat[1..]);
          var i :| 0 <= i < |flat[1..]| && CounterOf(flat[1..][i].ruleId) == l.counter;
          assert flat[i + 1] == flat[1..][i];
        }
      }
    }
  }

  // ---- the chain as first match over the flat list ----------------------

  /** What one flat rule's lines accept. Unlike the kernel program's test, an
      icmp packet is never tested against the ports. */
  predicate NftMatches(f: FlatRule, pkt: Packet) {
    && SideHolds(f.src, pkt.src) && SideHolds(f.dst, pkt.dst)
    && ProtoMatches(f.proto, pkt.proto)
    && (pkt.proto == ICMP || (f.lo == 0 && f.hi == 0) || f.lo <= pkt.dport <= f.hi)
  }

  function NftFirst(flat: seq<FlatRule>, pkt: Packet): Option<FlatRule> {
    if flat == [] then None
    else if NftMatches(flat[0], pkt) then Some(flat[0])
    else NftFirst(flat[1..], pkt)
  }

  lemma {:induction false} FirstLineConcat(a: seq<Line>, b: seq<Line>, pkt: Packet)
    ensures FirstLine(a + b, pkt) ==
            if FirstLine(a, pkt).Some? then FirstLine(a, pkt) else FirstLine(b, pkt)
  {
    if a == [] {
      assert a + b == b;
    } else {
      assert (a + b)[1..] == a[1..] + b;
      FirstLineConcat(a[1..], b, pkt);
    }
  }

  lemma RuleLinesMatch(f: FlatRule, pkt: Packet)
    ensures FirstLine(RuleLines(f), pkt).Some? <==> NftMatches(f, pkt)
    ensures FirstLine(RuleLines(f), pkt).Some? ==>
              var l := FirstLine(RuleLines(f), pkt).value;
              l.counter == CounterOf(f.ruleId) && l.action == f.action
  {
    var lines := RuleLines(f);
    assert FirstLine(lines, pkt) == if LineMatches(lines[0], pkt) then Some(lines[0]) else FirstLine(lines[1..], pkt);
    if f.proto == Any {
      assert lines[1..] == [LineFor(f, UDP), LineFor(f, ICMP)];
      assert lines[1..][1..] == [LineFor(f, ICMP)];
      assert FirstLine([LineFor(f, ICMP)][1..], pkt) == None;
    }
  }

  /** The line order of the whole chain is the rule order: the packet is charged
      to, and decided by, the first rule that accepts it. */
  lemma {:induction false} ChainIsFirstMatch(flat: seq<FlatRule>, pkt: Packet)
    ensures match NftFirst(flat, pkt)
            case Some(f) =>
              var l := FirstLine(Chain(flat), pkt);
              l.Some? && l.value.counter == CounterOf(f.ruleId) && l.value.action == f.action
            case None => FirstLine(Chain(flat), pkt) == None
  {
    if flat == [] {
    } else {
      FirstLineConcat(RuleLines(flat[0]), Chain(flat[1..]), pkt);
      RuleLinesMatch(flat[0], pkt);
      ChainIsFirstMatch(flat[1..], pkt);
    }
  }

  /** nft loads the chain exactly when no rule that tests ports has its range
      backwards. */
  lemma {:induction false} ChainLoads(flat: seq<FlatRule>)
    ensures Loadable(Chain(flat)) <==>
            forall i :: 0 <= i < |flat| ==> flat[i].proto != Icmp ==> flat[i].lo <= flat[i].hi
  {
    if flat == [] {
    } else {
      ChainLoads(flat[1..]);
      LoadableConcat(RuleLines(flat[0]), Chain(flat[1..]));
      RuleLoads(flat[0]);
      assert flat == [flat[0]] + flat[1..];
      assert forall i :: 0 <= i < |flat[1..]| ==> flat[i + 1] == flat[1..][i];
    }
  }

  lemma LoadableConcat(a: seq<Line>, b: seq<Line>)
    ensures Loadable(a + b) <==> Loadable(a) && Loadable(b)
  {
    if Loadable(a + b) {
      assert forall i :: 0 <= i < |a| ==> a[i] == (a + b)[i];
      assert forall i :: 0 <= i < |b| ==> b[i] == (a + b)[|a| + i];
    }
  }

  lemma RuleLoads(f: FlatRule)
    ensures Loadable(RuleLines(f)) <==> (f.proto != Icmp ==> f.lo <= f.hi)
  {
    assert RuleLines(f)[0] in RuleLines(f);
  }

  // ---- agreement with the eBPF backend ----------------------------------

  /** The rules both backends read alike. */
  predicate Portable(f: FlatRule) {
    f.lo == 0 || f.proto == Tcp || f.proto == Udp
  }

  /** Exact: a loadable rule means the same to both backends on every packet iff
      it cannot meet an icmp packet or its range starts at port zero. */
  lemma BackendsAgreeOnRule(f: FlatRule)
    requires f.src != [] && f.dst != [] && f.lo <= f.hi
    ensures (forall pkt :: NftMatches(f, pkt) <==> FlatMatches(f, pkt)) <==> Portable(f)
  {
    if !Portable(f) {
      var pkt := Packet(f.src[0].addr, f.dst[0].addr, ICMP, 0);
      assert Holds(f.src[0], pkt.src) && Holds(f.dst[0], pkt.dst);
      assert NftMatches(f, pkt) && !FlatMatches(f, pkt);
    }
  }

  function NftScan(flat: seq<FlatRule>, pkt: Packet): Option<Verdict> {
    match NftFirst(flat, pkt)
    case Some(f) => Some(Decided(f.action, f.ruleId))
    case None => None
  }

  function NftVerdict(flat: seq<FlatRule>, pkt: Packet): Verdict {
    match NftScan(flat, pkt)
    case Some(v) => v
    case None => DefaultDeny
  }

  lemma {:induction false} NftScanAgrees(flat: seq<FlatRule>, pkt: Packet)
    requires forall i :: 0 <= i < |flat| ==> Portable(flat[i]) && flat[i].lo <= flat[i].hi
    ensures var s := Scan(flat, pkt);
            NftVerdict(flat, pkt) == if s.Some? then s.value else DefaultDeny
  {
    if flat == [] {
    } else {
      assert NftMatches(flat[0], pkt) <==> FlatMatches(flat[0], pkt);
      NftScanAgrees(flat[1..], pkt);
    }
  }

  /** On a list of portable rules both backends decide every packet alike and
      charge the same rule. */
  lemma BackendsAgree(flat: seq<FlatRule>, pkt: Packet)
    requires forall i :: 0 <= i < |flat| ==> Portable(flat[i]) && flat[i].lo <= flat[i].hi
    ensures NftVerdict(flat, pkt) == FlatVerdict(flat, pkt)
  {
    NftScanAgrees(flat, pkt);
    ScanIsFirstFlat(flat, 0, pkt);
    assert flat[0..] == flat;
  }

  // ---- agreement with the policy ----------------------------------------

  /** The port lists the nftables encoding expresses. Only an explicit (0, 0)
      range is misread, as "any port"; icmp needs no special range here. */
  ghost predicate NftFaithful(r: IrRule) {
    PortRange(0, 0) !in r.ports || EveryPortListed(r.ports) || r.proto == Icmp
  }

  predicate NftEntry(r: PortRange, pkt: Packet) {
    pkt.proto == ICMP || (r.lo == 0 && r.hi == 0) || InRange(r, pkt.dport)
  }

  predicate NftPorts(ports: seq<PortRange>, pkt: Packet) {
    ports == [] || exists i :: 0 <= i < |ports| && NftEntry(ports[i], pkt)
  }

  lemma NftPortsAgree(r: IrRule, pkt: Packet)
    requires NftFaithful(r) && ProtoMatches(r.proto, pkt.proto)
    ensures NftPorts(r.ports, pkt) <==> PortsMatch(r.ports, pkt)
  {
    if r.ports != [] {
      if !HasPorts(pkt) {
        assert NftEntry(r.ports[0], pkt);
      } else if PortRange(0, 0) !in r.ports {
        assert forall i :: 0 <= i < |r.ports| ==> (NftEntry(r.ports[i], pkt) <==> InRange(r.ports[i], pkt.dport));
      } else {
        assert Listed(r.ports, pkt.dport);
        var i :| 0 <= i < |r.ports| && InRange(r.ports[i], pkt.dport);
        assert NftEntry(r.ports[i], pkt);
      }
    }
  }

  lemma NftPortsDisagree(r: IrRule, src: Addr, dst: Addr) returns (pkt: Packet)
    requires !NftFaithful(r)
    ensures pkt.src == src && pkt.dst == dst && ProtoMatches(r.proto, pkt.proto)
    ensures NftPorts(r.ports, pkt) && !PortsMatch(r.ports, pkt)
  {
    var p: Port :| !Listed(r.ports, p);
    pkt := PacketFor(src, dst, r.proto, p);
    var i :| 0 <= i < |r.ports| && r.ports[i] == PortRange(0, 0);
    assert NftEntry(r.ports[i], pkt);
  }

  lemma {:induction false} NftFirstConcat(a: seq<FlatRule>, b: seq<FlatRule>, pkt: Packet)
    ensures NftFirst(a + b, pkt) == if NftFirst(a, pkt).Some? then NftFirst(a, pkt) else NftFirst(b, pkt)
  {
    if a == [] {
      assert a + b == b;
    } else {
      assert (a + b)[1..] == a[1..] + b;
      NftFirstConcat(a[1..], b, pkt);
    }
  }

  lemma {:induction false} NftExploded(r: IrRule, src: seq<Net>, dst: seq<Net>, ports: seq<PortRange>, pkt: Packet)
    ensures var first := NftFirst(Explode(r, src, dst, ports), pkt);
            && (first.Some? <==>
                  && SideHolds(src, pkt.src) && SideHolds(dst, pkt.dst) && ProtoMatches(r.proto, pkt.proto)
                  && exists i :: 0 <= i < |ports| && NftEntry(ports[i], pkt))
            && (first.Some? ==> first.value.action == r.action && first.value.ruleId == r.ruleId)
  {
    if ports == [] {
    } else {
      NftExploded(r, src, dst, ports[1..], pkt);
      assert Explode(r, src, dst, ports)[1..] == Explode(r, src, dst, ports[1..]);
      assert (exists i :: 0 <= i < |ports| && NftEntry(ports[i], pkt))
          <==> NftEntry(ports[0], pkt) || exists i :: 0 <= i < |ports[1..]| && NftEntry(ports[1..][i], pkt) by {
        if i :| 0 < i < |ports| && NftEntry(ports[i], pkt) {
          assert NftEntry(ports[1..][i - 1], pkt);
        }
        if i :| 0 <= i < |ports[1..]| && NftEntry(ports[1..][i], pkt) {
          assert NftEntry(ports[i + 1], pkt);
        }
      }
    }
  }

  lemma NftExpandedRule(b: IrBlock, r: IrRule, pkt: Packet)
    ensures NftScan(ExpandRule(b, r), pkt) ==
              if AddressesMatch(b, r, pkt) && NftPorts(r.ports, pkt)
              then Some(Decided(r.action, r.ruleId)) else None
  {
    NetsHoldWhatTextsHold(SideTexts(b, r, Src), pkt.src);
    NetsHoldWhatTextsHold(SideTexts(b, r, Dst), pkt.dst);
    var ports := if r.ports == [] then [PortRange(0, 0)] else r.ports;
    NftExploded(r, RuleNets(b, r, Src), RuleNets(b, r, Dst), ports, pkt);
    assert r.ports == [] ==> NftEntry(ports[0], pkt);
  }

  ghost predicate NftFaithfulPolicy(blocks: seq<IrBlock>) {
    forall i, j :: 0 <= i < |blocks| && 0 <= j < |blocks[i].rules| ==> NftFaithful(blocks[i].rules[j])
  }

  lemma {:induction false} NftRules(b: IrBlock, rules: seq<IrRule>, pkt: Packet)
    requires forall j :: 0 <= j < |rules| ==> NftFaithful(rules[j])
    ensures NftScan(ExpandRules(b, rules), pkt) == FirstInRules(b, rules, pkt)
  {
    if rules == [] {
    } else {
      NftFirstConcat(ExpandRule(b, rules[0]), ExpandRules(b, rules[1..]), pkt);
      NftExpandedRule(b, rules[0], pkt);
      if ProtoMatches(rules[0].proto, pkt.proto) {
        NftPortsAgree(rules[0], pkt);
      }
      NftRules(b, rules[1..], pkt);
    }
  }

  lemma {:induction false} NftBlocks(blocks: seq<IrBlock>, pkt: Packet)
    requires NftFaithfulPolicy(blocks)
    ensures NftScan(ExpandBlocks(blocks), pkt) == FirstInBlocks(blocks, pkt)
  {
    if blocks == [] {
    } else {
      var b := blocks[0];
      NftFirstConcat(ExpandRules(b, b.rules), ExpandBlocks(blocks[1..]), pkt);
      NftRules(b, b.rules, pkt);
      assert forall i :: 0 <= i < |blocks[1..]| ==> blocks[1..][i] == blocks[i + 1];
      NftBlocks(blocks[1..], pkt);
    }
  }

  /** The chain decides every packet of a new flow as the policy does, and
      charges the counter of the rule the policy names. */
  lemma NftEnforcesPolicy(blocks: seq<IrBlock>, pkt: Packet)
    requires NftFaithfulPolicy(blocks)
    ensures match Meaning(blocks, pkt)
            case Decided(action, ruleId) =>
              var l := FirstLine(Chain(ExpandBlocks(blocks)), pkt);
              l.Some? && l.value.action == action && l.value.counter == CounterOf(ruleId)
            case DefaultDeny => FirstLine(Chain(ExpandBlocks(blocks)), pkt) == None
  {
    NftBlocks(blocks, pkt);
    ChainIsFirstMatch(ExpandBlocks(blocks), pkt);
  }

  /** For a policy of one rule the condition is necessary as well. */
  lemma NftSingleRuleExact(b: IrBlock)
    requires |b.rules| == 1 && RuleOk(b, b.rules[0])
    ensures (forall pkt :: NftVerdict(ExpandBlocks([b]), pkt) == Meaning([b], pkt)) <==> NftFaithful(b.rules[0])
  {
    var r := b.rules[0];
    if NftFaithful(r) {
      forall pkt ensures NftVerdict(ExpandBlocks([b]), pkt) == Meaning([b], pkt) {
        NftBlocks([b], pkt);
      }
    } else {
      var srcs, dsts := SideTexts(b, r, Src), SideTexts(b, r, Dst);
      assert srcs[0] in srcs && dsts[0] in dsts;
      var pkt := NftPortsDisagree(r, srcs[0].net.addr, dsts[0].net.addr);
      assert Holds(srcs[0].net, pkt.src) && Holds(dsts[0].net, pkt.dst);
      assert b.rules == [r];
      NftFirstConcat(ExpandRule(b, r), [], pkt);
      NftExpandedRule(b, r, pkt);
      assert ExpandBlocks([b]) == ExpandRule(b, r) + [];
      assert FirstInRules(b, [r][1..], pkt) == None;
      assert FirstInBlocks([b][1..], pkt) == None;
      assert NftVerdict(ExpandBlocks([b]), pkt) != Meaning([b], pkt);
    }
  }

  /** For what the policy compiler emits the two backends, and the policy, are
      one: every packet of a new flow gets the same action and rule. */
  lemma CompiledBackendsAgree(blocks: seq<IrBlock>, pkt: Packet)
    requires CompilerPolicy(blocks)
    ensures NftVerdict(ExpandBlocks(blocks), pkt)
            == FlatVerdict(Indexed(ExpandBlocks(blocks)), pkt)
            == Meaning(blocks, pkt)
  {
    CompiledIsFaithful(blocks);
    FlatteningPreservesMeaning(blocks, pkt);
    forall i, j | 0 <= i < |blocks| && 0 <= j < |blocks[i].rules| ensures NftFaithful(blocks[i].rules[j]) {
      assert CompilerPorts(blocks[i].rules[j]);
    }
    NftBlocks(blocks, pkt);
  }

  /** Off the wire the backends can part: a rule for any protocol with a port
      range takes icmp under nftables and not under eBPF. */
  lemma AnyWithPortsSplitsBackends(src: Net, dst: Net)
    ensures var blocks := [OneRule(src, dst, Any, [PortRange(80, 80)])];
            var pkt := Packet(src.addr, dst.addr, ICMP, 0);
            && Flattenable(blocks)
            && NftVerdict(ExpandBlocks(blocks), pkt) == Decided(Allow, "r")
            && FlatVerdict(Indexed(ExpandBlocks(blocks)), pkt) == DefaultDeny
  {
    var ports := [PortRange(80, 80)];
    var b := OneRule(src, dst, Any, ports);
    var pkt := Packet(src.addr, dst.addr, ICMP, 0);
    OneRuleAccepted(src, dst, Any, ports);
    OneRuleVerdict(src, dst, Any, ports, pkt);
    assert !EntryPorts(ports[0], pkt) && NftFaithful(b.rules[0]);
    NftBlocks([b], pkt);
  }
}
