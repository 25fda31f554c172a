/** Turning a policy into the ordered rule list both backends scan: block-CIDR
    fallback, one entry per port range, and the three load-time limits. */
module Flatten {
  import opened Outcomes
  import opened Nets
  import opened PolicyIr

  datatype Side = Src | Dst

  datatype FlattenError =
    | TooManyRules(expanded: nat)
    | BadCidr
    | EmptySide(side: Side)
    | TooManyCidrs(side: Side)

  // ---- what flattening computes -----------------------------------------

  function NetsOf(texts: seq<CidrText>): (nets: seq<Net>)
    ensures |nets| <= |texts|
  {
    if texts == [] then []
    else if texts[0].Cidr? then [texts[0].net] + NetsOf(texts[1..])
    else NetsOf(texts[1..])
  }

  predicate AllParse(texts: seq<CidrText>) {
    forall t :: t in texts ==> t.Cidr?
  }

  function SideTexts(b: IrBlock, r: IrRule, side: Side): seq<CidrText> {
    match side
    case Src => Effective(r.src, b.srcCidrs)
    case Dst => Effective(r.dst, b.dstCidrs)
  }

  function RuleNets(b: IrBlock, r: IrRule, side: Side): seq<Net> {
    NetsOf(SideTexts(b, r, side))
  }

  function Explode(r: IrRule, src: seq<Net>, dst: seq<Net>, ports: seq<PortRange>): (flat: seq<FlatRule>)
    ensures |flat| == |ports|
  {
    if ports == [] then []
    else [FlatRule(0, r.ruleId, r.action, r.proto, src, dst, ports[0].lo, ports[0].hi)]
         + Explode(r, src, dst, ports[1..])
  }

  /** One entry per port range; a rule without ports gets a single (0, 0) entry. */
  function ExpandRule(b: IrBlock, r: IrRule): (flat: seq<FlatRule>)
    ensures |flat| == Weight(r)
  {
    Explode(r, RuleNets(b, r, Src), RuleNets(b, r, Dst), if r.ports == [] then [PortRange(0, 0)] else r.ports)
  }

  function ExpandRules(b: IrBlock, rules: seq<IrRule>): (flat: seq<FlatRule>)
    ensures |flat| == RulesWeight(rules)
  {
    if rules == [] then [] else ExpandRule(b, rules[0]) + ExpandRules(b, rules[1..])
  }

  function ExpandBlocks(blocks: seq<IrBlock>): (flat: seq<FlatRule>)
    ensures |flat| == BlocksWeight(blocks)
  {
    if blocks == [] then [] else ExpandRules(blocks[0], blocks[0].rules) + ExpandBlocks(blocks[1..])
  }

  function Weight(r: IrRule): nat {
    if r.ports == [] then 1 else |r.ports|
  }

  function RulesWeight(rules: seq<IrRule>): nat {
    if rules == [] then 0 else Weight(rules[0]) + RulesWeight(rules[1..])
  }

  function BlocksWeight(blocks: seq<IrBlock>): nat {
    if blocks == [] then 0 else RulesWeight(blocks[0].rules) + BlocksWeight(blocks[1..])
  }

  /** The same list with every entry carrying its own position. */
  function Indexed(flat: seq<FlatRule>): (r: seq<FlatRule>)
    ensures |r| == |flat|
  {
    seq(|flat|, i requires 0 <= i < |flat| => flat[i].(idx := i))
  }

  // ---- when it succeeds -------------------------------------------------

  predicate RuleOk(b: IrBlock, r: IrRule) {
    && AllParse(SideTexts(b, r, Src)) && AllParse(SideTexts(b, r, Dst))
    && SideTexts(b, r, Src) != [] && SideTexts(b, r, Dst) != []
  }

  predicate RulesOk(b: IrBlock, rules: seq<IrRule>) {
    rules == [] || (RuleOk(b, rules[0]) && RulesOk(b, rules[1..]))
  }

  predicate BlockOk(b: IrBlock) {
    AllParse(b.srcCidrs) && AllParse(b.dstCidrs) && RulesOk(b, b.rules)
  }

  predicate BlocksOk(blocks: seq<IrBlock>) {
    blocks == [] || (BlockOk(blocks[0]) && BlocksOk(blocks[1..]))
  }

  /** The error names a defect that is really there: a list that does not parse
      or is empty, or a side over the trie capacity. */
  predicate Explains(e: FlattenError, ok: bool, src: set<Net>, dst: set<Net>) {
    match e
    case TooManyRules(_) => false
    case BadCidr => !ok
    case EmptySide(_) => !ok
    case TooManyCidrs(Src) => |src| > LPM_MAX_ENTRIES
    case TooManyCidrs(Dst) => |dst| > LPM_MAX_ENTRIES
  }

  function RulesNetSet(b: IrBlock, rules: seq<IrRule>, side: Side): set<Net> {
    if rules == [] then {} else Elems(RuleNets(b, rules[0], side)) + RulesNetSet(b, rules[1..], side)
  }

  /** Every distinct CIDR the policy's rules carry on one side. */
  function NetSet(blocks: seq<IrBlock>, side: Side): set<Net> {
    if blocks == [] then {}
    else RulesNetSet(blocks[0], blocks[0].rules, side) + NetSet(blocks[1..], side)
  }

  predicate Flattenable(blocks: seq<IrBlock>) {
    && BlocksWeight(blocks) <= MAX_RULES
    && BlocksOk(blocks)
    && |NetSet(blocks, Src)| <= LPM_MAX_ENTRIES
    && |NetSet(blocks, Dst)| <= LPM_MAX_ENTRIES
  }

  // ---- distinct CIDRs of one side ---------------------------------------

  function Elems(nets: seq<Net>): set<Net> {
    set n | n in nets
  }

  predicate NoDuplicates(nets: seq<Net>) {
    forall i, j :: 0 <= i < j < |nets| ==> nets[i] != nets[j]
  }

  /** `order` extended by the members of `cidrs` it lacks, at first appearance. */
  function Merge(order: seq<Net>, cidrs: seq<Net>): (m: seq<Net>)
    ensures Elems(m) == Elems(order) + Elems(cidrs)
    ensures NoDuplicates(order) ==> NoDuplicates(m)
    ensures order <= m
    decreases |cidrs|
  {
    if cidrs == [] then order
    else
      assert cidrs == [cidrs[0]] + cidrs[1..];
      Merge(if cidrs[0] in order then order else order + [cidrs[0]], cidrs[1..])
  }

  lemma {:induction false} DistinctCount(order: seq<Net>)
    requires NoDuplicates(order)
    ensures |Elems(order)| == |order|
  {
    if order == [] {
    } else {
      var last := order[|order| - 1];
      DistinctCount(order[..|order| - 1]);
      assert Elems(order) == Elems(order[..|order| - 1]) + {last};
      assert last !in order[..|order| - 1];
    }
  }

  lemma {:induction false} SubsetCount<T>(a: set<T>, b: set<T>)
    requires a <= b
    ensures |a| <= |b|
  {
    if a != {} {
      var x :| x in a;
      SubsetCount(a - {x}, b - {x});
    }
  }

  lemma MergeStep(order: seq<Net>, cidrs: seq<Net>, i: nat)
    requires i < |cidrs|
    ensures Merge(order, cidrs[i..]) ==
            Merge(if cidrs[i] in order then order else order + [cidrs[i]], cidrs[i + 1..])
  {
    assert cidrs[i..][1..] == cidrs[i + 1..];
  }

  lemma AppendNew(order: seq<Net>, c: Net)
    requires NoDuplicates(order) && c !in order
    ensures NoDuplicates(order + [c]) && Elems(order + [c]) == Elems(order) + {c}
  {
  }

  /** The one accumulator every "how many distinct CIDRs" question goes through. */
  class DistinctSideCidrs {
    var seen: set<Net>
    var order: seq<Net>

    ghost predicate Valid()
      reads this
    {
      seen == Elems(order) && NoDuplicates(order)
    }

    constructor ()
      ensures Valid() && order == []
    {
      seen, order := {}, [];
    }

    method Observe(cidrs: seq<Net>)
      requires Valid()
      modifies this
      ensures Valid()
      ensures order == Merge(old(order), cidrs)
      ensures seen == old(seen) + Elems(cidrs)
    {
      for i := 0 to |cidrs|
        invariant Valid()
        invariant Merge(order, cidrs[i..]) == Merge(old(order), cidrs)
      {
        MergeStep(order, cidrs, i);
        ObserveOne(cidrs[i]);
      }
      assert cidrs[|cidrs|..] == [];
    }

    method ObserveOne(c: Net)
      requires Valid()
      modifies this
      ensures Valid() && order == if c in old(order) then old(order) else old(order) + [c]
    {
      if c !in seen {
        AppendNew(order, c);
        seen := seen + {c};
        order := order + [c];
      }
    }

    /** Over capacity exactly when more than 1024 distinct CIDRs were observed. */
    method Check() returns (ok: bool)
      requires Valid()
      ensures ok <==> |seen| <= LPM_MAX_ENTRIES
    {
      DistinctCount(order);
      ok := |order| <= LPM_MAX_ENTRIES;
    }
  }

  // ---- the flattener ----------------------------------------------------

  lemma TextsStep(nets: seq<Net>, texts: seq<CidrText>, i: nat)
    requires i < |texts|
    ensures AllParse(texts[i..]) <==> texts[i].Cidr? && AllParse(texts[i + 1..])
    ensures texts[i].Cidr? ==> nets + NetsOf(texts[i..]) == (nets + [texts[i].net]) + NetsOf(texts[i + 1..])
  {
    assert texts[i..] == [texts[i]] + texts[i + 1..];
    assert texts[i..][1..] == texts[i + 1..];
  }

  method ParseCidrs(texts: seq<CidrText>) returns (r: Option<seq<Net>>)
    ensures r.Some? <==> AllParse(texts)
    ensures r.Some? ==> r.value == NetsOf(texts)
  {
    var nets: seq<Net> := [];
    for i := 0 to |texts|
      invariant AllParse(texts) <==> AllParse(texts[i..])
      invariant nets + NetsOf(texts[i..]) == NetsOf(texts)
    {
      TextsStep(nets, texts, i);
      if texts[i].Malformed? {
        return None;
      }
      nets := nets + [texts[i].net];
    }
    r := Some(nets);
  }

  lemma {:induction false} NetsOfEmpty(texts: seq<CidrText>)
    requires AllParse(texts)
    ensures NetsOf(texts) == [] <==> texts == []
  {
  }

  /** A rule's side: its own list, or the block's already parsed one. */
  method ResolveSide(own: seq<CidrText>, block: seq<CidrText>, blockNets: seq<Net>) returns (r: Option<seq<Net>>)
    requires AllParse(block) && blockNets == NetsOf(block)
    ensures r.Some? <==> AllParse(Effective(own, block))
    ensures r.Some? ==> r.value == NetsOf(Effective(own, block))
    ensures r.Some? ==> (r.value == [] <==> Effective(own, block) == [])
  {
    if own == [] {
      r := Some(blockNets);
    } else {
      r := ParseCidrs(own);
    }
    if r.Some? {
      NetsOfEmpty(Effective(own, block));
    }
  }

  method ExplodePorts(r: IrRule, src: seq<Net>, dst: seq<Net>) returns (flat: seq<FlatRule>)
    ensures flat == Explode(r, src, dst, if r.ports == [] then [PortRange(0, 0)] else r.ports)
  {
    if r.ports == [] {
      return [FlatRule(0, r.ruleId, r.action, r.proto, src, dst, 0, 0)];
    }
    flat := [];
    for i := 0 to |r.ports|
      invariant flat + Explode(r, src, dst, r.ports[i..]) == Explode(r, src, dst, r.ports)
    {
      assert r.ports[i..][1..] == r.ports[i + 1..];
      flat := flat + [FlatRule(0, r.ruleId, r.action, r.proto, src, dst, r.ports[i].lo, r.ports[i].hi)];
    }
  }

  /** One rule: resolve its two sides, refuse an empty one, account for its
      CIDRs, then emit its entries. */
  method FlattenRule(b: IrBlock, r: IrRule, blockSrc: seq<Net>, blockDst: seq<Net>,
                     srcDistinct: DistinctSideCidrs, dstDistinct: DistinctSideCidrs)
    returns (out: Result<seq<FlatRule>, FlattenError>)
    requires AllParse(b.srcCidrs) && AllParse(b.dstCidrs)
    requires blockSrc == NetsOf(b.srcCidrs) && blockDst == NetsOf(b.dstCidrs)
    requires srcDistinct != dstDistinct && srcDistinct.Valid() && dstDistinct.Valid()
    modifies srcDistinct, dstDistinct
    ensures srcDistinct.Valid() && dstDistinct.Valid()
    ensures out.Ok? ==>
            && out.value == ExpandRule(b, r)
            && RuleOk(b, r)
            && srcDistinct.seen == old(srcDistinct.seen) + Elems(RuleNets(b, r, Src))
            && dstDistinct.seen == old(dstDistinct.seen) + Elems(RuleNets(b, r, Dst))
            && |srcDistinct.seen| <= LPM_MAX_ENTRIES && |dstDistinct.seen| <= LPM_MAX_ENTRIES
    ensures out.Err? ==>
              Explains(out.error, RuleOk(b, r),
                       old(srcDistinct.seen) + Elems(RuleNets(b, r, Src)),
                       old(dstDistinct.seen) + Elems(RuleNets(b, r, Dst)))
  {
    var src := ResolveSide(r.src, b.srcCidrs, blockSrc);
    if src.None? { return Err(BadCidr); }
    var dst := ResolveSide(r.dst, b.dstCidrs, blockDst);
    if dst.None? { return Err(BadCidr); }
    if src.value == [] { return Err(EmptySide(Src)); }
    if dst.value == [] { return Err(EmptySide(Dst)); }

    srcDistinct.Observe(src.value);
    var fits := srcDistinct.Check();
    if !fits { return Err(TooManyCidrs(Src)); }
    dstDistinct.Observe(dst.value);
    fits := dstDistinct.Check();
    if !fits { return Err(TooManyCidrs(Dst)); }

    var flat := ExplodePorts(r, src.value, dst.value);
    out := Ok(flat);
  }

  method CountExpanded(blocks: seq<IrBlock>) returns (expanded: nat)
    ensures expanded == BlocksWeight(blocks)
  {
    expanded := 0;
    for i := 0 to |blocks|
      invariant expanded + BlocksWeight(blocks[i..]) == BlocksWeight(blocks)
    {
      assert blocks[i..][1..] == blocks[i + 1..];
      var rules := blocks[i].rules;
      for j := 0 to |rules|
        invariant expanded + RulesWeight(rules[j..]) + BlocksWeight(blocks[i + 1..]) == BlocksWeight(blocks)
      {
        assert rules[j..][1..] == rules[j + 1..];
        expanded := expanded + (if rules[j].ports == [] then 1 else |rules[j].ports|);
      }
    }
  }

  lemma ConcatAssociates<T>(a: seq<T>, b: seq<T>, c: seq<T>)
    ensures (a + b) + c == a + (b + c)
  {
  }

  lemma GrowsToward<T>(seen: set<T>, piece: set<T>, rest: set<T>)
    ensures (seen + piece) + rest == seen + (piece + rest)
    ensures |seen + piece| <= |seen + (piece + rest)|
  {
    SubsetCount(seen + piece, seen + (piece + rest));
  }

  lemma RulesStep(b: IrBlock, j: nat)
    requires j < |b.rules|
    ensures RulesOk(b, b.rules[j..]) <==> RuleOk(b, b.rules[j]) && RulesOk(b, b.rules[j + 1..])
    ensures ExpandRules(b, b.rules[j..]) == ExpandRule(b, b.rules[j]) + ExpandRules(b, b.rules[j + 1..])
    ensures forall side :: RulesNetSet(b, b.rules[j..], side) ==
              Elems(RuleNets(b, b.rules[j], side)) + RulesNetSet(b, b.rules[j + 1..], side)
  {
    assert b.rules[j..][1..] == b.rules[j + 1..];
  }

  lemma BlocksStep(blocks: seq<IrBlock>, i: nat)
    requires i < |blocks|
    ensures BlocksOk(blocks[i..]) <==> BlockOk(blocks[i]) && BlocksOk(blocks[i + 1..])
    ensures ExpandBlocks(blocks[i..]) == ExpandRules(blocks[i], blocks[i].rules) + ExpandBlocks(blocks[i + 1..])
    ensures forall side :: NetSet(blocks[i..], side) ==
              RulesNetSet(blocks[i], blocks[i].rules, side) + NetSet(blocks[i + 1..], side)
  {
    assert blocks[i..][1..] == blocks[i + 1..];
  }

  /** Every rule of one block. */
  method FlattenBlock(b: IrBlock, srcDistinct: DistinctSideCidrs, dstDistinct: DistinctSideCidrs)
    returns (out: Result<seq<FlatRule>, FlattenError>)
    requires srcDistinct != dstDistinct && srcDistinct.Valid() && dstDistinct.Valid()
    requires |srcDistinct.seen| <= LPM_MAX_ENTRIES && |dstDistinct.seen| <= LPM_MAX_ENTRIES
    modifies srcDistinct, dstDistinct
    ensures srcDistinct.Valid() && dstDistinct.Valid()
    ensures out.Ok? ==>
            && out.value == ExpandRules(b, b.rules)
            && BlockOk(b)
            && srcDistinct.seen == old(srcDistinct.seen) + RulesNetSet(b, b.rules, Src)
            && dstDistinct.seen == old(dstDistinct.seen) + RulesNetSet(b, b.rules, Dst)
            && |srcDistinct.seen| <= LPM_MAX_ENTRIES && |dstDistinct.seen| <= LPM_MAX_ENTRIES
    ensures out.Err? ==>
              Explains(out.error, BlockOk(b),
                       old(srcDistinct.seen) + RulesNetSet(b, b.rules, Src),
                       old(dstDistinct.seen) + RulesNetSet(b, b.rules, Dst))
  {
    ghost var srcAll := srcDistinct.seen + RulesNetSet(b, b.rules, Src);
    ghost var dstAll := dstDistinct.seen + RulesNetSet(b, b.rules, Dst);
    var blockSrc := ParseCidrs(b.srcCidrs);
    if blockSrc.None? { return Err(BadCidr); }
    var blockDst := ParseCidrs(b.dstCidrs);
    if blockDst.None? { return Err(BadCidr); }
    var flat := [];
    for j := 0 to |b.rules|
      invariant srcDistinct.Valid() && dstDistinct.Valid()
      invariant |srcDistinct.seen| <= LPM_MAX_ENTRIES && |dstDistinct.seen| <= LPM_MAX_ENTRIES
      invariant RulesOk(b, b.rules) <==> RulesOk(b, b.rules[j..])
      invariant flat + ExpandRules(b, b.rules[j..]) == ExpandRules(b, b.rules)
      invariant srcDistinct.seen + RulesNetSet(b, b.rules[j..], Src) == srcAll
      invariant dstDistinct.seen + RulesNetSet(b, b.rules[j..], Dst) == dstAll
    {
      RulesStep(b, j);
      GrowsToward(srcDistinct.seen, Elems(RuleNets(b, b.rules[j], Src)), RulesNetSet(b, b.rules[j + 1..], Src));
      GrowsToward(dstDistinct.seen, Elems(RuleNets(b, b.rules[j], Dst)), RulesNetSet(b, b.rules[j + 1..], Dst));
      var piece := FlattenRule(b, b.rules[j], blockSrc.value, blockDst.value, srcDistinct, dstDistinct);
      if piece.Err? { return Err(piece.error); }
      ConcatAssociates(flat, piece.value, ExpandRules(b, b.rules[j + 1..]));
      flat := flat + piece.value;
    }
    assert b.rules[|b.rules|..] == [];
    out := Ok(flat);
  }

  method FillPositions(flat: seq<FlatRule>) returns (r: seq<FlatRule>)
    ensures r == Indexed(flat)
  {
    r := flat;
    for i := 0 to |r|
      invariant |r| == |flat|
      invariant forall k :: 0 <= k < i ==> r[k] == flat[k].(idx := k)
      invariant forall k :: i <= k < |flat| ==> r[k] == flat[k]
    {
      r := r[i := r[i].(idx := i)];
    }
  }

  method FlattenBlocks(blocks: seq<IrBlock>, srcDistinct: DistinctSideCidrs, dstDistinct: DistinctSideCidrs)
    returns (out: Result<seq<FlatRule>, FlattenError>)
    requires srcDistinct != dstDistinct && srcDistinct.Valid() && dstDistinct.Valid()
    requires srcDistinct.seen == {} && dstDistinct.seen == {}
    modifies srcDistinct, dstDistinct
    ensures out.Ok? ==>
            && BlocksOk(blocks) && out.value == ExpandBlocks(blocks)
            && |NetSet(blocks, Src)| <= LPM_MAX_ENTRIES && |NetSet(blocks, Dst)| <= LPM_MAX_ENTRIES
    ensures out.Err? ==> Explains(out.error, BlocksOk(blocks), NetSet(blocks, Src), NetSet(blocks, Dst))
  {
    var flat := [];
    for i := 0 to |blocks|
      invariant srcDistinct.Valid() && dstDistinct.Valid()
      invariant |srcDistinct.seen| <= LPM_MAX_ENTRIES && |dstDistinct.seen| <= LPM_MAX_ENTRIES
      invariant BlocksOk(blocks) <==> BlocksOk(blocks[i..])
      invariant flat + ExpandBlocks(blocks[i..]) == ExpandBlocks(blocks)
      invariant srcDistinct.seen + NetSet(blocks[i..], Src) == NetSet(blocks, Src)
      invariant dstDistinct.seen + NetSet(blocks[i..], Dst) == NetSet(blocks, Dst)
    {
      ghost var b := blocks[i];
      BlocksStep(blocks, i);
      GrowsToward(srcDistinct.seen, RulesNetSet(b, b.rules, Src), NetSet(blocks[i + 1..], Src));
      GrowsToward(dstDistinct.seen, RulesNetSet(b, b.rules, Dst), NetSet(blocks[i + 1..], Dst));
      var piece := FlattenBlock(blocks[i], srcDistinct, dstDistinct);
      if piece.Err? { return Err(piece.error); }
      ConcatAssociates(flat, piece.value, ExpandBlocks(blocks[i + 1..]));
      flat := flat + piece.value;
    }
    assert blocks[|blocks|..] == [];
    out := Ok(flat);
  }

  /** The whole flattener. It succeeds exactly on flattenable policies, its
      result is the expanded list with positions filled in, and each error
      names a limit or defect the policy really has. */
  method FlattenPolicy(blocks: seq<IrBlock>) returns (out: Result<seq<FlatRule>, FlattenError>)
    ensures out.Ok? <==> Flattenable(blocks)
    ensures out.Ok? ==> out.value == Indexed(ExpandBlocks(blocks))
    ensures out.Err? && out.error.TooManyRules? <==> BlocksWeight(blocks) > MAX_RULES
    ensures out.Err? && !out.error.TooManyRules? ==>
              Explains(out.error, BlocksOk(blocks), NetSet(blocks, Src), NetSet(blocks, Dst))
  {
    var expanded := CountExpanded(blocks);
    if expanded > MAX_RULES {
      return Err(TooManyRules(expanded));
    }
    var srcDistinct := new DistinctSideCidrs();
    var dstDistinct := new DistinctSideCidrs();
    out := FlattenBlocks(blocks, srcDistinct, dstDistinct);
    if out.Ok? {
      var flat := FillPositions(out.value);
      out := Ok(flat);
    }
  }
}
