/** The eBPF matcher: per-side longest-prefix tries whose entries hold
    cumulative rule bitsets, and the kernel's bounded scan over their
    intersection. */
module LpmMatcher {
  import opened Outcomes
  import opened Nets
  import opened PolicyIr
  import opened Flatten
  import opened FlattenMeaning

  // ---- 256-bit rule sets in four words ----------------------------------

  const BITSET_WORDS: nat := 4

  type RuleBits = b: seq<bv64> | |b| == BITSET_WORDS witness [0, 0, 0, 0]

  function NoBits(): RuleBits {
    [0, 0, 0, 0]
  }

  function Shift(k: nat): (s: bv7)
    requires k < 64
    ensures s < 64 && s as nat == k
  {
    k as bv7
  }

  predicate TestBit(w: bv64, s: bv7)
    requires s < 64
  {
    (w >> s) & 1 != 0
  }

  function OrBit(w: bv64, s: bv7): bv64
    requires s < 64
  {
    w | (1 << s)
  }

  /** Out-of-range positions read as unset. */
  predicate BitGet(bits: RuleBits, idx: nat) {
    var w := idx / 64;
    w < BITSET_WORDS && TestBit(bits[w], Shift(idx % 64))
  }

  /** Out-of-range positions are left alone. */
  function BitSet(bits: RuleBits, idx: nat): RuleBits {
    var w := idx / 64;
    if w < BITSET_WORDS then bits[w := OrBit(bits[w], Shift(idx % 64))] else bits
  }

  function AndBits(a: RuleBits, b: RuleBits): RuleBits {
    seq(BITSET_WORDS, w requires 0 <= w < BITSET_WORDS => AndWord(a[w], b[w]))
  }

  function AndWord(a: bv64, b: bv64): bv64 {
    a & b
  }

  lemma OrBitTests(w: bv64, i: bv7, k: bv7)
    requires i < 64 && k < 64
    ensures TestBit(OrBit(w, i), k) <==> i == k || TestBit(w, k)
  {
  }

  lemma AndTests(a: bv64, b: bv64, k: bv7)
    requires k < 64
    ensures TestBit(AndWord(a, b), k) <==> TestBit(a, k) && TestBit(b, k)
  {
  }

  lemma ZeroTests(k: bv7)
    requires k < 64
    ensures !TestBit(0, k)
  {
  }

  lemma BitSetGet(bits: RuleBits, i: nat, k: nat)
    ensures BitGet(BitSet(bits, i), k) <==> (i == k && i < MAX_RULES) || BitGet(bits, k)
  {
    if i / 64 < BITSET_WORDS && k / 64 == i / 64 {
      OrBitTests(bits[i / 64], Shift(i % 64), Shift(k % 64));
      assert Shift(i % 64) == Shift(k % 64) <==> i % 64 == k % 64;
      assert i == 64 * (i / 64) + i % 64 && k == 64 * (k / 64) + k % 64;
    }
  }

  lemma AndBitsGet(a: RuleBits, b: RuleBits, k: nat)
    ensures BitGet(AndBits(a, b), k) <==> BitGet(a, k) && BitGet(b, k)
  {
    var w := k / 64;
    if w < BITSET_WORDS {
      AndTests(a[w], b[w], Shift(k % 64));
    }
  }

  lemma NoBitsGet(k: nat)
    ensures !BitGet(NoBits(), k)
  {
    ZeroTests(Shift(k % 64));
  }

  // ---- distinct CIDRs of a flat list ------------------------------------

  function SideNets(f: FlatRule, side: Side): seq<Net> {
    match side
    case Src => f.src
    case Dst => f.dst
  }

  function MergeAll(order: seq<Net>, flat: seq<FlatRule>, side: Side): (m: seq<Net>)
    ensures NoDuplicates(order) ==> NoDuplicates(m)
    ensures Elems(m) == Elems(order) + FlatNetSet(flat, side)
    decreases |flat|
  {
    if flat == [] then order
    else MergeAll(Merge(order, SideNets(flat[0], side)), flat[1..], side)
  }

  /** Every CIDR of the list on one side, once, in order of first appearance. */
  function DistinctNets(flat: seq<FlatRule>, side: Side): seq<Net> {
    MergeAll([], flat, side)
  }

  function FlatNetSet(flat: seq<FlatRule>, side: Side): set<Net> {
    if flat == [] then {} else Elems(SideNets(flat[0], side)) + FlatNetSet(flat[1..], side)
  }

  lemma {:induction false} FlatNetSetMembers(flat: seq<FlatRule>, side: Side, n: Net)
    ensures n in FlatNetSet(flat, side) <==> exists i :: 0 <= i < |flat| && n in SideNets(flat[i], side)
  {
    if flat == [] {
    } else {
      FlatNetSetMembers(flat[1..], side, n);
      if n in FlatNetSet(flat[1..], side) {
        var i :| 0 <= i < |flat[1..]| && n in SideNets(flat[1..][i], side);
        assert flat[i + 1] == flat[1..][i];
      }
      if exists i :: 0 < i < |flat| && n in SideNets(flat[i], side) {
        var i :| 0 < i < |flat| && n in SideNets(flat[i], side);
        assert flat[1..][i - 1] == flat[i];
      }
    }
  }

  method AccumulateSide(flat: seq<FlatRule>, side: Side) returns (acc: DistinctSideCidrs)
    ensures fresh(acc) && acc.Valid()
    ensures acc.order == DistinctNets(flat, side)
    ensures acc.seen == FlatNetSet(flat, side)
  {
    acc := new DistinctSideCidrs();
    for i := 0 to |flat|
      invariant fresh(acc) && acc.Valid()
      invariant MergeAll(acc.order, flat[i..], side) == DistinctNets(flat, side)
    {
      assert flat[i..][1..] == flat[i + 1..];
      acc.Observe(SideNets(flat[i], side));
    }
    assert Elems([]) == {};
  }

  /** True iff both sides' distinct CIDRs fit the trie. */
  method CheckLpmCapacity(flat: seq<FlatRule>) returns (ok: bool)
    ensures ok <==> |FlatNetSet(flat, Src)| <= LPM_MAX_ENTRIES && |FlatNetSet(flat, Dst)| <= LPM_MAX_ENTRIES
  {
    var acc := AccumulateSide(flat, Src);
    ok := acc.Check();
    if ok {
      acc := AccumulateSide(flat, Dst);
      ok := acc.Check();
    }
  }

  lemma {:induction false} FlatNetSetConcat(a: seq<FlatRule>, b: seq<FlatRule>, side: Side)
    ensures FlatNetSet(a + b, side) == FlatNetSet(a, side) + FlatNetSet(b, side)
  {
    if a == [] {
      assert a + b == b;
    } else {
      assert (a + b)[1..] == a[1..] + b;
      FlatNetSetConcat(a[1..], b, side);
    }
  }

  lemma {:induction false} ExplodedNets(r: IrRule, src: seq<Net>, dst: seq<Net>, ports: seq<PortRange>, side: Side)
    ensures FlatNetSet(Explode(r, src, dst, ports), side) ==
              if ports == [] then {} else Elems(match side case Src => src case Dst => dst)
  {
    if ports == [] {
    } else {
      assert Explode(r, src, dst, ports)[1..] == Explode(r, src, dst, ports[1..]);
      ExplodedNets(r, src, dst, ports[1..], side);
    }
  }

  lemma {:induction false} ExpandedRulesNets(b: IrBlock, rules: seq<IrRule>, side: Side)
    ensures FlatNetSet(ExpandRules(b, rules), side) == RulesNetSet(b, rules, side)
  {
    if rules == [] {
    } else {
      FlatNetSetConcat(ExpandRule(b, rules[0]), ExpandRules(b, rules[1..]), side);
      var ports := if rules[0].ports == [] then [PortRange(0, 0)] else rules[0].ports;
      ExplodedNets(rules[0], RuleNets(b, rules[0], Src), RuleNets(b, rules[0], Dst), ports, side);
      ExpandedRulesNets(b, rules[1..], side);
    }
  }

  lemma {:induction false} ExpandedBlocksNets(blocks: seq<IrBlock>, side: Side)
    ensures FlatNetSet(ExpandBlocks(blocks), side) == NetSet(blocks, side)
  {
    if blocks == [] {
    } else {
      FlatNetSetConcat(ExpandRules(blocks[0], blocks[0].rules), ExpandBlocks(blocks[1..]), side);
      ExpandedRulesNets(blocks[0], blocks[0].rules, side);
      ExpandedBlocksNets(blocks[1..], side);
    }
  }

  lemma IndexedNets(flat: seq<FlatRule>, side: Side)
    ensures FlatNetSet(Indexed(flat), side) == FlatNetSet(flat, side)
  {
    forall n ensures n in FlatNetSet(Indexed(flat), side) <==> n in FlatNetSet(flat, side) {
      FlatNetSetMembers(flat, side, n);
      FlatNetSetMembers(Indexed(flat), side, n);
      if i :| 0 <= i < |flat| && n in SideNets(flat[i], side) {
        assert n in SideNets(Indexed(flat)[i], side);
      }
      if i :| 0 <= i < |flat| && n in SideNets(Indexed(flat)[i], side) {
        assert n in SideNets(flat[i], side);
      }
    }
  }

  /** Counting per rule while flattening is the same count the loader repeats
      per flat entry: a policy that flattens never fails the capacity check. */
  lemma FlattenedNetsAreThePolicys(blocks: seq<IrBlock>, side: Side)
    ensures FlatNetSet(Indexed(ExpandBlocks(blocks)), side) == NetSet(blocks, side)
  {
    IndexedNets(ExpandBlocks(blocks), side);
    ExpandedBlocksNets(blocks, side);
  }

  // ---- trie entries -----------------------------------------------------

  datatype Entry = Entry(net: Net, bits: RuleBits)

  datatype Key = Key(len: PrefixLen, data: nat)

  type Trie = map<Key, RuleBits>

  function KeyOf(n: Net): Key {
    Key(n.len, Network(n))
  }

  /** Some CIDR of the rule covers `p`. */
  predicate RuleCovers(f: FlatRule, side: Side, p: Net) {
    exists c :: c in SideNets(f, side) && Covers(c, p)
  }

  /** Bit `k` belongs in the entry for `p`. */
  predicate BitWanted(flat: seq<FlatRule>, side: Side, p: Net, k: nat) {
    k < |flat| && RuleCovers(flat[k], side, p)
  }

  predicate Positioned(flat: seq<FlatRule>) {
    |flat| <= MAX_RULES && forall i :: 0 <= i < |flat| ==> flat[i].idx == i
  }

  ghost predicate BitsFor(bits: RuleBits, flat: seq<FlatRule>, side: Side, p: Net) {
    forall k: nat :: BitGet(bits, k) <==> BitWanted(flat, side, p, k)
  }

  method AnyCovers(cidrs: seq<Net>, p: Net) returns (found: bool)
    ensures found <==> exists c :: c in cidrs && Covers(c, p)
  {
    found := false;
    for i := 0 to |cidrs|
      invariant found <==> exists c :: c in cidrs[..i] && Covers(c, p)
    {
      assert cidrs[..i + 1] == cidrs[..i] + [cidrs[i]];
      if Covers(cidrs[i], p) {
        found := true;
      }
    }
    assert cidrs[..|cidrs|] == cidrs;
  }

  method CoverBits(flat: seq<FlatRule>, side: Side, p: Net) returns (bits: RuleBits)
    requires Positioned(flat)
    ensures BitsFor(bits, flat, side, p)
  {
    bits := NoBits();
    forall k: nat ensures !BitGet(bits, k) {
      NoBitsGet(k);
    }
    for i := 0 to |flat|
      invariant forall k: nat :: BitGet(bits, k) <==> k < i && BitWanted(flat, side, p, k)
    {
      var covers := AnyCovers(SideNets(flat[i], side), p);
      if covers {
        ghost var before := bits;
        bits := BitSet(bits, flat[i].idx);
        forall k: nat ensures BitGet(bits, k) <==> k < i + 1 && BitWanted(flat, side, p, k) {
          BitSetGet(before, i, k);
        }
      }
    }
  }

  ghost predicate EntriesFor(entries: seq<Entry>, flat: seq<FlatRule>, side: Side) {
    && |entries| == |DistinctNets(flat, side)|
    && forall i :: 0 <= i < |entries| ==>
         entries[i].net == DistinctNets(flat, side)[i] && BitsFor(entries[i].bits, flat, side, entries[i].net)
  }

  method BuildLpmEntries(flat: seq<FlatRule>, side: Side) returns (entries: seq<Entry>)
    requires Positioned(flat)
    ensures EntriesFor(entries, flat, side)
  {
    var acc := AccumulateSide(flat, side);
    var nets := acc.order;
    entries := [];
    for i := 0 to |nets|
      invariant |entries| == i
      invariant forall k :: 0 <= k < i ==>
        entries[k].net == nets[k] && BitsFor(entries[k].bits, flat, side, nets[k])
    {
      var bits := CoverBits(flat, side, nets[i]);
      entries := entries + [Entry(nets[i], bits)];
    }
  }

  /** Entries inserted in order; a later one under the same key replaces. */
  function Inserted(entries: seq<Entry>): Trie {
    if entries == [] then map[]
    else
      var last := entries[|entries| - 1];
      Inserted(entries[..|entries| - 1])[KeyOf(last.net) := last.bits]
  }

  /** A trie refuses a new key once full. */
  method BuildTrie(entries: seq<Entry>) returns (trie: Option<Trie>)
    ensures |entries| <= LPM_MAX_ENTRIES ==> trie.Some?
    ensures trie.Some? ==> trie.value == Inserted(entries)
  {
    var t: Trie := map[];
    for i := 0 to |entries|
      invariant t == Inserted(entries[..i])
      invariant |t| <= i
    {
      var key := KeyOf(entries[i].net);
      if key !in t && |t| >= LPM_MAX_ENTRIES {
        return None;
      }
      assert entries[..i + 1][..i] == entries[..i];
      t := t[key := entries[i].bits];
    }
    assert entries[..|entries|] == entries;
    trie := Some(t);
  }

  /** Two CIDRs that mask to the same trie key want the same bits, so it does
      not matter which of their entries survives. */
  lemma CollidingEntriesAgree(flat: seq<FlatRule>, side: Side, p: Net, q: Net, k: nat)
    requires KeyOf(p) == KeyOf(q)
    ensures BitWanted(flat, side, p, k) <==> BitWanted(flat, side, q, k)
  {
    assert forall c :: Covers(c, p) <==> Covers(c, q);
  }

  /** The trie for one side, whatever the order its entries went in: a key is
      present iff some distinct CIDR masks to it, and holds that CIDR's bits. */
  ghost predicate TrieFor(trie: Trie, flat: seq<FlatRule>, side: Side) {
    && (forall key :: key in trie ==> exists n :: n in FlatNetSet(flat, side) && KeyOf(n) == key)
    && (forall n :: n in FlatNetSet(flat, side) ==>
          KeyOf(n) in trie && BitsFor(trie[KeyOf(n)], flat, side, n))
  }

  lemma {:induction false} InsertedHolds(entries: seq<Entry>, flat: seq<FlatRule>, side: Side)
    requires forall i :: 0 <= i < |entries| ==> BitsFor(entries[i].bits, flat, side, entries[i].net)
    ensures forall key :: key in Inserted(entries) ==> exists i :: 0 <= i < |entries| && KeyOf(entries[i].net) == key
    ensures forall i :: 0 <= i < |entries| ==>
              && KeyOf(entries[i].net) in Inserted(entries)
              && BitsFor(Inserted(entries)[KeyOf(entries[i].net)], flat, side, entries[i].net)
  {
    if entries == [] {
    } else {
      var m := |entries| - 1;
      var rest := entries[..m];
      var last := entries[m];
      InsertedHolds(rest, flat, side);
      forall i | 0 <= i < |entries|
        ensures KeyOf(entries[i].net) in Inserted(entries)
        ensures BitsFor(Inserted(entries)[KeyOf(entries[i].net)], flat, side, entries[i].net)
      {
        if KeyOf(entries[i].net) == KeyOf(last.net) {
          forall k: nat ensures BitGet(last.bits, k) <==> BitWanted(flat, side, entries[i].net, k) {
            CollidingEntriesAgree(flat, side, last.net, entries[i].net, k);
          }
        } else {
          assert rest[i] == entries[i];
        }
      }
      forall key | key in Inserted(entries)
        ensures exists i :: 0 <= i < |entries| && KeyOf(entries[i].net) == key
      {
        if key != KeyOf(last.net) {
          var i :| 0 <= i < |rest| && KeyOf(rest[i].net) == key;
          assert entries[i] == rest[i];
        }
      }
    }
  }

  lemma DistinctNetsMembers(flat: seq<FlatRule>, side: Side, n: Net)
    ensures n in FlatNetSet(flat, side) <==> n in DistinctNets(flat, side)
  {
    assert Elems(DistinctNets(flat, side)) == Elems([]) + FlatNetSet(flat, side);
    assert n in Elems(DistinctNets(flat, side)) <==> n in DistinctNets(flat, side);
  }

  lemma ShuffledEntries(entries: seq<Entry>, shuffled: seq<Entry>, e: Entry)
    requires multiset(shuffled) == multiset(entries)
    ensures e in shuffled <==> e in entries
  {
    assert e in shuffled <==> e in multiset(shuffled);
    assert e in entries <==> e in multiset(entries);
  }

  /** Any order of the entries builds a trie with the same answers. */
  lemma AnyOrderBuildsTheTrie(entries: seq<Entry>, shuffled: seq<Entry>, flat: seq<FlatRule>, side: Side)
    requires EntriesFor(entries, flat, side)
    requires multiset(shuffled) == multiset(entries)
    ensures TrieFor(Inserted(shuffled), flat, side)
  {
    forall i | 0 <= i < |shuffled| ensures BitsFor(shuffled[i].bits, flat, side, shuffled[i].net) {
      ShuffledEntries(entries, shuffled, shuffled[i]);
    }
    InsertedHolds(shuffled, flat, side);
    forall n | n in FlatNetSet(flat, side)
      ensures KeyOf(n) in Inserted(shuffled) && BitsFor(Inserted(shuffled)[KeyOf(n)], flat, side, n)
    {
      DistinctNetsMembers(flat, side, n);
      var i :| 0 <= i < |entries| && entries[i].net == n;
      ShuffledEntries(entries, shuffled, entries[i]);
      var k :| 0 <= k < |shuffled| && shuffled[k] == entries[i];
    }
    forall key | key in Inserted(shuffled)
      ensures exists n :: n in FlatNetSet(flat, side) && KeyOf(n) == key
    {
      var i :| 0 <= i < |shuffled| && KeyOf(shuffled[i].net) == key;
      ShuffledEntries(entries, shuffled, shuffled[i]);
      DistinctNetsMembers(flat, side, shuffled[i].net);
    }
  }

  // ---- longest-prefix lookup --------------------------------------------

  /** The entry with the longest prefix, at most `len`, that matches `a`. */
  function LongestMatch(trie: Trie, a: Addr, len: PrefixLen): Option<RuleBits> {
    if Key(len, Mask(a, len)) in trie then Some(trie[Key(len, Mask(a, len))])
    else if len == 0 then None
    else LongestMatch(trie, a, len - 1)
  }

  function LookupBits(trie: Trie, a: Addr): RuleBits {
    match LongestMatch(trie, a, 32)
    case Some(bits) => bits
    case None => NoBits()
  }

  lemma KeyMatchesIffHolds(n: Net, a: Addr)
    ensures KeyOf(n) == Key(n.len, Mask(a, n.len)) <==> Holds(n, a)
  {
    HoldsIffMaskEqual(n, a);
  }

  /** The longest match sees every covering rule: a rule's bit is set in it iff
      one of the rule's own CIDRs contains the address. */
  lemma {:induction false} LongestMatchIsCumulative(trie: Trie, flat: seq<FlatRule>, side: Side, a: Addr,
                                                    len: PrefixLen, k: nat)
    requires TrieFor(trie, flat, side)
    requires forall n :: n in FlatNetSet(flat, side) && Holds(n, a) ==> n.len <= len
    ensures var m := LongestMatch(trie, a, len);
            (m.Some? && BitGet(m.value, k)) <==> k < |flat| && SideHolds(SideNets(flat[k], side), a)
  {
    var key := Key(len, Mask(a, len));
    if key in trie {
      var p :| p in FlatNetSet(flat, side) && KeyOf(p) == key;
      KeyMatchesIffHolds(p, a);
      assert BitsFor(trie[key], flat, side, p);
      assert BitGet(trie[key], k) <==> BitWanted(flat, side, p, k);
      CoverageAtLongest(flat, side, a, p, k);
    } else if len > 0 {
      forall n | n in FlatNetSet(flat, side) && Holds(n, a) ensures n.len <= len - 1 {
        KeyMatchesIffHolds(n, a);
      }
      LongestMatchIsCumulative(trie, flat, side, a, len - 1, k);
    } else {
      forall n | n in FlatNetSet(flat, side) ensures !Holds(n, a) {
        KeyMatchesIffHolds(n, a);
      }
      if k < |flat| && SideHolds(SideNets(flat[k], side), a) {
        var i :| 0 <= i < |SideNets(flat[k], side)| && Holds(SideNets(flat[k], side)[i], a);
        FlatNetSetMembers(flat, side, SideNets(flat[k], side)[i]);
        assert false;
      }
    }
  }

  lemma CoverageAtLongest(flat: seq<FlatRule>, side: Side, a: Addr, p: Net, k: nat)
    requires Holds(p, a)
    requires forall n :: n in FlatNetSet(flat, side) && Holds(n, a) ==> n.len <= p.len
    ensures BitWanted(flat, side, p, k) <==> k < |flat| && SideHolds(SideNets(flat[k], side), a)
  {
    if k < |flat| {
      var nets := SideNets(flat[k], side);
      if RuleCovers(flat[k], side, p) {
        var c :| c in nets && Covers(c, p);
        var i :| 0 <= i < |nets| && nets[i] == c;
        assert Holds(nets[i], a);
      }
      if SideHolds(nets, a) {
        var i :| 0 <= i < |nets| && Holds(nets[i], a);
        FlatNetSetMembers(flat, side, nets[i]);
        SharedAddressNests(nets[i], p, a);
        assert nets[i] in nets;
      }
    }
  }

  lemma LookupIsExact(trie: Trie, flat: seq<FlatRule>, side: Side, a: Addr, k: nat)
    requires TrieFor(trie, flat, side)
    ensures BitGet(LookupBits(trie, a), k) <==> k < |flat| && SideHolds(SideNets(flat[k], side), a)
  {
    LongestMatchIsCumulative(trie, flat, side, a, 32, k);
    NoBitsGet(k);
  }

  // ---- the kernel's verdict path ----------------------------------------

  /** What a rule keeps once its CIDRs live in the tries. */
  datatype RuleMeta = RuleMeta(action: Action, proto: nat, lo: Port, hi: Port)

  function ProtoNum(p: Proto): nat {
    match p
    case Tcp => 6
    case Udp => 17
    case Icmp => 1
    case Any => 0
  }

  function MetaOf(f: FlatRule): RuleMeta {
    RuleMeta(f.action, ProtoNum(f.proto), f.lo, f.hi)
  }

  predicate MetaTest(m: RuleMeta, pkt: Packet) {
    && (if m.proto == 0 then pkt.proto == 1 || pkt.proto == 6 || pkt.proto == 17 else m.proto == pkt.proto)
    && (m.hi == 0 || m.lo <= KernelPort(pkt) <= m.hi)
  }

  /** Both lookups carry bit `k` and the rule's metadata admits the packet. */
  predicate Candidate(srcTrie: Trie, dstTrie: Trie, m: RuleMeta, pkt: Packet, k: nat) {
    BitGet(LookupBits(srcTrie, pkt.src), k) && BitGet(LookupBits(dstTrie, pkt.dst), k) && MetaTest(m, pkt)
  }

  method BuildRules(flat: seq<FlatRule>) returns (rules: seq<RuleMeta>, ids: seq<string>)
    ensures |rules| == |flat| && |ids| == |flat|
    ensures forall i :: 0 <= i < |flat| ==> rules[i] == MetaOf(flat[i]) && ids[i] == flat[i].ruleId
  {
    rules, ids := [], [];
    for i := 0 to |flat|
      invariant |rules| == i && |ids| == i
      invariant forall k :: 0 <= k < i ==> rules[k] == MetaOf(flat[k]) && ids[k] == flat[k].ruleId
    {
      rules := rules + [MetaOf(flat[i])];
      ids := ids + [flat[i].ruleId];
    }
  }

  /** One packet against one generation: intersect the two lookups, take the
      lowest set bit whose metadata admits the packet, charge its counter. */
  method ScanGeneration(srcTrie: Trie, dstTrie: Trie, rules: seq<RuleMeta>, pkt: Packet)
    returns (action: Action, charged: nat)
    requires |rules| <= MAX_RULES
    ensures charged == CTR_DEFAULT_DENY || charged < |rules|
    ensures charged < |rules| ==>
              Candidate(srcTrie, dstTrie, rules[charged], pkt, charged) && action == rules[charged].action
    ensures forall k :: 0 <= k < |rules| && k < charged ==> !Candidate(srcTrie, dstTrie, rules[k], pkt, k)
    ensures charged >= |rules| ==> charged == CTR_DEFAULT_DENY && action == Deny
  {
    var src, dst := LookupBits(srcTrie, pkt.src), LookupBits(dstTrie, pkt.dst);
    var bits := AndBits(src, dst);
    var i := 0;
    while i < MAX_RULES
      invariant 0 <= i <= MAX_RULES
      invariant forall k :: 0 <= k < |rules| && k < i ==> !Candidate(srcTrie, dstTrie, rules[k], pkt, k)
    {
      if i >= |rules| {
        break;
      }
      AndBitsGet(src, dst, i);
      if BitGet(bits, i) && MetaTest(rules[i], pkt) {
        return rules[i].action, i;
      }
      i := i + 1;
    }
    return Deny, CTR_DEFAULT_DENY;
  }

  lemma CandidateIsMatch(srcTrie: Trie, dstTrie: Trie, flat: seq<FlatRule>, pkt: Packet, k: nat)
    requires TrieFor(srcTrie, flat, Src) && TrieFor(dstTrie, flat, Dst)
    requires k < |flat|
    ensures Candidate(srcTrie, dstTrie, MetaOf(flat[k]), pkt, k) <==> FlatMatches(flat[k], pkt)
  {
    LookupIsExact(srcTrie, flat, Src, pkt.src, k);
    LookupIsExact(dstTrie, flat, Dst, pkt.dst, k);
  }

  lemma FirstMatchIsUnique(flat: seq<FlatRule>, pkt: Packet, i: nat)
    requires i < |flat| ==> FlatMatches(flat[i], pkt)
    requires forall k :: 0 <= k < |flat| && k < i ==> !FlatMatches(flat[k], pkt)
    ensures if i < |flat| then FirstFlat(flat, 0, pkt) == i else FirstFlat(flat, 0, pkt) == |flat|
  {
  }

  /** Compile a flat list and classify one packet with the result. The rule
      charged is the first rule of the list that matches on its own CIDRs, and
      default deny is charged exactly when none does. */
  method Classify(flat: seq<FlatRule>, pkt: Packet) returns (r: Option<(Action, nat)>)
    requires Positioned(flat)
    ensures r.Some? <==> |FlatNetSet(flat, Src)| <= LPM_MAX_ENTRIES && |FlatNetSet(flat, Dst)| <= LPM_MAX_ENTRIES
    ensures r.Some? ==>
              var i := FirstFlat(flat, 0, pkt);
              r.value == if i < |flat| then (flat[i].action, i) else (Deny, CTR_DEFAULT_DENY)
  {
    var fits := CheckLpmCapacity(flat);
    if !fits {
      return None;
    }
    var srcTrie := BuildSide(flat, Src);
    var dstTrie := BuildSide(flat, Dst);
    var rules, ids := BuildRules(flat);
    var action, charged := ScanGeneration(srcTrie, dstTrie, rules, pkt);
    forall k: nat | k < |flat|
      ensures Candidate(srcTrie, dstTrie, rules[k], pkt, k) <==> FlatMatches(flat[k], pkt)
    {
      CandidateIsMatch(srcTrie, dstTrie, flat, pkt, k);
    }
    FirstMatchIsUnique(flat, pkt, charged);
    r := Some((action, charged));
  }

  method BuildSide(flat: seq<FlatRule>, side: Side) returns (trie: Trie)
    requires Positioned(flat) && |FlatNetSet(flat, side)| <= LPM_MAX_ENTRIES
    ensures TrieFor(trie, flat, side)
  {
    var entries := BuildLpmEntries(flat, side);
    var nets := DistinctNets(flat, side);
    DistinctCount(nets);
    assert Elems(nets) == Elems([]) + FlatNetSet(flat, side) == FlatNetSet(flat, side);
    var built := BuildTrie(entries);
    AnyOrderBuildsTheTrie(entries, entries, flat, side);
    trie := built.value;
  }

  /** End to end for what the compiler emits: flatten, build the tries, scan.
      Every packet gets the verdict the policy gives it, charged to the rule the
      policy names. */
  method EnforceEbpf(blocks: seq<IrBlock>, pkt: Packet) returns (r: Option<(Action, nat)>)
    requires Faithful(blocks)
    ensures r.Some? <==> Flattenable(blocks)
    ensures r.Some? ==>
              match Meaning(blocks, pkt)
              case Decided(action, ruleId) =>
                && r.value.0 == action && r.value.1 < |ExpandBlocks(blocks)|
                && ExpandBlocks(blocks)[r.value.1].ruleId == ruleId
              case DefaultDeny => r.value == (Deny, CTR_DEFAULT_DENY)
  {
    var flat := FlattenPolicy(blocks);
    if flat.Err? {
      return None;
    }
    FlattenedNetsAreThePolicys(blocks, Src);
    FlattenedNetsAreThePolicys(blocks, Dst);
    FlatteningPreservesMeaning(blocks, pkt);
    r := Classify(flat.value, pkt);
  }
}
