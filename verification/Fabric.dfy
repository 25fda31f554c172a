/** The controller's segments, their CIDRs and the policy versions, as changed
    by segment creation, deletion and the declarative apply, each of which is
    one transaction. */
module Fabric {
  import opened Outcomes
  import opened Nets

  type Name = string
  type Source = string
  type Fingerprint = nat

  type Segments = map<Name, seq<Net>>

  /** What the policy compiler is given: every segment with its CIDR set. */
  type Defs = map<Name, set<Net>>

  /** The compiler, as a function of the source and the segment table: a
      fingerprint of the compiled blocks, or nothing on an error. */
  type Compiler = (Source, Defs) -> Option<Fingerprint>

  /** Version numbers are positions, counted from one. */
  datatype Version = Version(source: Source, fingerprint: Fingerprint)

  datatype Audit =
    | CreatedSegment(name: Name)
    | UpdatedCidrs(name: Name)
    | NewPolicy(version: nat)
    | DeletedSegment(name: Name)

  datatype Fabric = Fabric(segments: Segments, policies: seq<Version>, audit: seq<Audit>, revision: nat)

  datatype Error = Overlap(conflicting: Name) | EmptyCidrs | DuplicateName | CompileError | NoSegment | HasGateway

  datatype Declared = Declared(name: Name, cidrs: seq<Net>)

  function CidrSet(cidrs: seq<Net>): set<Net> {
    set c | c in cidrs
  }

  function DefsOf(segments: Segments): Defs {
    map n | n in segments :: CidrSet(segments[n])
  }

  // ---- CIDR disjointness ------------------------------------------------

  predicate PairwiseApart(cidrs: seq<Net>) {
    forall i, j :: 0 <= i < j < |cidrs| ==> !Overlaps(cidrs[i], cidrs[j])
  }

  predicate ApartFrom(cidrs: seq<Net>, others: seq<Net>) {
    forall i, j :: 0 <= i < |cidrs| && 0 <= j < |others| ==> !Overlaps(cidrs[i], others[j])
  }

  /** What inserting `cidrs` for `name` demands: none overlaps a sibling or a
      CIDR of any other segment. */
  predicate Admissible(segments: Segments, name: Name, cidrs: seq<Net>) {
    && PairwiseApart(cidrs)
    && forall n :: n in segments && n != name ==> ApartFrom(cidrs, segments[n])
  }

  /** The error names a segment that really stands in the way. */
  predicate Conflicts(segments: Segments, name: Name, cidrs: seq<Net>, conflicting: Name) {
    if conflicting == name then !PairwiseApart(cidrs)
    else conflicting in segments && !ApartFrom(cidrs, segments[conflicting])
  }

  predicate Disjoint(segments: Segments) {
    && (forall n :: n in segments ==> PairwiseApart(segments[n]))
    && (forall n, m :: n in segments && m in segments && n != m ==> ApartFrom(segments[n], segments[m]))
  }

  /** Each address lies in at most one CIDR of at most one segment. */
  ghost predicate AddressesOwnedOnce(segments: Segments) {
    forall a: Addr, n, m, i, j ::
      (&& n in segments && m in segments && 0 <= i < |segments[n]| && 0 <= j < |segments[m]|
       && Holds(segments[n][i], a) && Holds(segments[m][j], a)) ==> n == m && i == j
  }

  lemma OverlapsSymmetric(a: Net, b: Net)
    ensures Overlaps(a, b) <==> Overlaps(b, a)
  {
  }

  /** The two-way containment test is exactly what ownership needs. */
  lemma DisjointIffOwnedOnce(segments: Segments)
    ensures Disjoint(segments) <==> AddressesOwnedOnce(segments)
  {
    if Disjoint(segments) {
      forall a: Addr, n, m, i, j |
        n in segments && m in segments && 0 <= i < |segments[n]| && 0 <= j < |segments[m]|
        && Holds(segments[n][i], a) && Holds(segments[m][j], a)
        ensures n == m && i == j
      {
        OverlapsIffShare(segments[n][i], segments[m][j]);
        OverlapsSymmetric(segments[n][i], segments[m][j]);
      }
    }
    if AddressesOwnedOnce(segments) {
      forall n, i, j | n in segments && 0 <= i < j < |segments[n]| ensures !Overlaps(segments[n][i], segments[n][j]) {
        OwnedApart(segments, n, n, i, j);
      }
      forall n, m | n in segments && m in segments && n != m ensures ApartFrom(segments[n], segments[m]) {
        forall i, j | 0 <= i < |segments[n]| && 0 <= j < |segments[m]|
          ensures !Overlaps(segments[n][i], segments[m][j])
        {
          OwnedApart(segments, n, m, i, j);
        }
      }
    }
  }

  lemma OwnedApart(segments: Segments, n: Name, m: Name, i: nat, j: nat)
    requires AddressesOwnedOnce(segments)
    requires n in segments && m in segments && i < |segments[n]| && j < |segments[m]| && (n != m || i != j)
    ensures !Overlaps(segments[n][i], segments[m][j])
  {
    OverlapsIffShare(segments[n][i], segments[m][j]);
    if Share(segments[n][i], segments[m][j]) {
      var a: Addr :| Holds(segments[n][i], a) && Holds(segments[m][j], a);
    }
  }

  lemma ApartSymmetric(a: seq<Net>, b: seq<Net>)
    ensures ApartFrom(a, b) <==> ApartFrom(b, a)
  {
    forall i, j | 0 <= i < |a| && 0 <= j < |b| ensures Overlaps(a[i], b[j]) <==> Overlaps(b[j], a[i]) {
      OverlapsSymmetric(a[i], b[j]);
    }
  }

  lemma AdmissibleKeepsDisjoint(segments: Segments, name: Name, cidrs: seq<Net>)
    requires Disjoint(segments) && Admissible(segments, name, cidrs)
    ensures Disjoint(segments[name := cidrs])
  {
    var s' := segments[name := cidrs];
    forall n, m | n in s' && m in s' && n != m ensures ApartFrom(s'[n], s'[m]) {
      if m == name {
        ApartSymmetric(cidrs, segments[n]);
      }
    }
  }

  // ---- inserting the CIDRs of one segment -------------------------------

  method OverlapsAny(cidr: Net, others: seq<Net>) returns (found: bool)
    ensures found <==> !ApartFrom([cidr], others)
  {
    found := false;
    for i := 0 to |others|
      invariant found <==> exists k :: 0 <= k < i && Overlaps(cidr, others[k])
    {
      if Overlaps(cidr, others[i]) {
        found := true;
      }
    }
    assert [cidr][0] == cidr;
  }

  method FindConflict(segments: Segments, name: Name, cidr: Net) returns (conflict: Option<Name>)
    ensures conflict.None? <==> forall n :: n in segments && n != name ==> ApartFrom([cidr], segments[n])
    ensures conflict.Some? ==>
              conflict.value in segments && conflict.value != name && !ApartFrom([cidr], segments[conflict.value])
  {
    var left := segments.Keys - {name};
    while left != {}
      invariant left <= segments.Keys - {name}
      invariant forall n :: n in segments && n != name && n !in left ==> ApartFrom([cidr], segments[n])
      decreases |left|
    {
      var n :| n in left;
      var hit := OverlapsAny(cidr, segments[n]);
      if hit {
        return Some(n);
      }
      left := left - {n};
    }
    return None;
  }

  lemma ApartOneMore(cidrs: seq<Net>, k: nat, others: seq<Net>)
    requires k < |cidrs|
    ensures ApartFrom(cidrs[..k + 1], others) <==> ApartFrom(cidrs[..k], others) && ApartFrom([cidrs[k]], others)
  {
    var more, one := cidrs[..k + 1], [cidrs[k]];
    assert more == cidrs[..k] + one;
    if ApartFrom(more, others) {
      forall i, j | 0 <= i < 1 && 0 <= j < |others| ensures !Overlaps(one[i], others[j]) {
        assert more[k] == one[i];
      }
      forall i, j | 0 <= i < k && 0 <= j < |others| ensures !Overlaps(cidrs[..k][i], others[j]) {
        assert more[i] == cidrs[..k][i];
      }
    }
  }

  lemma ApartPrefix(cidrs: seq<Net>, k: nat, others: seq<Net>)
    requires k < |cidrs| && !ApartFrom([cidrs[k]], others)
    ensures !ApartFrom(cidrs, others)
  {
    var i, j :| 0 <= i < 1 && 0 <= j < |others| && Overlaps([cidrs[k]][i], others[j]);
    assert Overlaps(cidrs[k], others[j]);
  }

  method InsertCidrs(segments: Segments, name: Name, cidrs: seq<Net>) returns (r: Result<Segments, Error>)
    ensures r.Ok? <==> Admissible(segments, name, cidrs)
    ensures r.Ok? ==> r.value == segments[name := cidrs]
    ensures r.Err? ==> r.error.Overlap? && Conflicts(segments, name, cidrs, r.error.conflicting)
  {
    for k := 0 to |cidrs|
      invariant PairwiseApart(cidrs[..k])
      invariant forall n :: n in segments && n != name ==> ApartFrom(cidrs[..k], segments[n])
    {
      var self := OverlapsAny(cidrs[k], cidrs[..k]);
      if self {
        SelfOverlap(cidrs, k);
        return Err(Overlap(name));
      }
      PairwiseOneMore(cidrs, k);
      var conflict := FindConflict(segments, name, cidrs[k]);
      if conflict.Some? {
        ApartPrefix(cidrs, k, segments[conflict.value]);
        return Err(Overlap(conflict.value));
      }
      forall n | n in segments && n != name ensures ApartFrom(cidrs[..k + 1], segments[n]) {
        ApartOneMore(cidrs, k, segments[n]);
      }
    }
    assert cidrs[..|cidrs|] == cidrs;
    return Ok(segments[name := cidrs]);
  }

  lemma SelfOverlap(cidrs: seq<Net>, k: nat)
    requires k < |cidrs| && !ApartFrom([cidrs[k]], cidrs[..k])
    ensures !PairwiseApart(cidrs)
  {
    var i, j :| 0 <= i < 1 && 0 <= j < k && Overlaps([cidrs[k]][i], cidrs[..k][j]);
    OverlapsSymmetric(cidrs[k], cidrs[j]);
    assert Overlaps(cidrs[j], cidrs[k]);
  }

  lemma PairwiseOneMore(cidrs: seq<Net>, k: nat)
    requires k < |cidrs| && PairwiseApart(cidrs[..k]) && ApartFrom([cidrs[k]], cidrs[..k])
    ensures PairwiseApart(cidrs[..k + 1])
  {
    var more := cidrs[..k + 1];
    forall i, j | 0 <= i < j < |more| ensures !Overlaps(more[i], more[j]) {
      if j == k {
        assert !Overlaps([cidrs[k]][0], cidrs[..k][i]);
        OverlapsSymmetric(more[i], more[j]);
      } else {
        assert cidrs[..k][i] == more[i] && cidrs[..k][j] == more[j];
      }
    }
  }

  // ---- the declarative apply --------------------------------------------

  datatype Change = Same | Created | Updated

  /** One declared segment against the table; `existing` are the names on file
      when the apply began. */
  function Outcome(cur: Segments, existing: set<Name>, d: Declared): Option<Change> {
    if d.name in existing then
      if d.name in cur && CidrSet(cur[d.name]) == CidrSet(d.cidrs) then Some(Same)
      else if Admissible(cur, d.name, d.cidrs) then Some(Updated) else None
    else if d.cidrs == [] || d.name in cur then None
    else if Admissible(cur, d.name, d.cidrs) then Some(Created) else None
  }

  function After(cur: Segments, existing: set<Name>, d: Declared): Segments {
    var o := Outcome(cur, existing, d);
    if o.None? || o.value.Same? then cur else cur[d.name := d.cidrs]
  }

  datatype Progress = Progress(segments: Segments, created: nat, updated: nat, audit: seq<Audit>)

  function Advance(p: Progress, existing: set<Name>, d: Declared): Option<Progress> {
    var next := After(p.segments, existing, d);
    match Outcome(p.segments, existing, d)
    case None => None
    case Some(Same) => Some(p)
    case Some(Created) => Some(Progress(next, p.created + 1, p.updated, p.audit + [CreatedSegment(d.name)]))
    case Some(Updated) => Some(Progress(next, p.created, p.updated + 1, p.audit + [UpdatedCidrs(d.name)]))
  }

  function AdvanceAll(p: Progress, existing: set<Name>, decls: seq<Declared>): Option<Progress>
    decreases |decls|
  {
    if decls == [] then Some(p)
    else
      match Advance(p, existing, decls[0])
      case None => None
      case Some(p') => AdvanceAll(p', existing, decls[1..])
  }

  /** The source to compile: the apply's own, else the stored one when some
      segment's CIDRs were replaced. */
  function EffectiveSource(f: Fabric, updated: nat, own: Option<Source>): Option<Source> {
    if own.Some? then own
    else if updated > 0 && f.policies != [] then Some(f.policies[|f.policies| - 1].source)
    else None
  }

  predicate NewFingerprint(policies: seq<Version>, fp: Fingerprint) {
    policies == [] || policies[|policies| - 1].fingerprint != fp
  }

  /** The policy table after compiling against the new segments. */
  function Compiled(f: Fabric, segments: Segments, updated: nat, own: Option<Source>,
                    compile: Compiler): Option<seq<Version>>
  {
    match EffectiveSource(f, updated, own)
    case None => Some(f.policies)
    case Some(source) =>
      match compile(source, DefsOf(segments))
      case None => None
      case Some(fp) => Some(if NewFingerprint(f.policies, fp) then f.policies + [Version(source, fp)] else f.policies)
  }

  function Committed(f: Fabric, p: Progress, policies: seq<Version>): Fabric {
    if p.created == 0 && p.updated == 0 && policies == f.policies then f
    else Fabric(p.segments, policies,
                f.audit + p.audit + (if policies == f.policies then [] else [NewPolicy(|policies|)]),
                f.revision + 1)
  }

  function Start(f: Fabric): Progress {
    Progress(f.segments, 0, 0, [])
  }

  /** The whole transaction: all of it, or nothing. */
  function Applied(f: Fabric, decls: seq<Declared>, own: Option<Source>, compile: Compiler): Option<Fabric> {
    match AdvanceAll(Start(f), f.segments.Keys, decls)
    case None => None
    case Some(p) =>
      match Compiled(f, p.segments, p.updated, own, compile)
      case None => None
      case Some(policies) => Some(Committed(f, p, policies))
  }

  function CreatedWith(f: Fabric, name: Name, cidrs: seq<Net>): Option<Fabric> {
    if cidrs == [] || name in f.segments || !Admissible(f.segments, name, cidrs) then None
    else
      Some(f.(segments := f.segments[name := cidrs], audit := f.audit + [CreatedSegment(name)],
              revision := f.revision + 1))
  }

  function DeletedFrom(f: Fabric, name: Name, hasGateway: bool): Option<Fabric> {
    if name !in f.segments || hasGateway then None
    else
      Some(f.(segments := f.segments - {name}, audit := f.audit + [DeletedSegment(name)],
              revision := f.revision + 1))
  }

  class Db {
    var segments: Segments
    var policies: seq<Version>
    var audit: seq<Audit>
    var revision: nat

    function View(): Fabric
      reads this
    {
      Fabric(segments, policies, audit, revision)
    }

    constructor ()
      ensures View() == Fabric(map[], [], [], 0)
    {
      segments, policies, audit, revision := map[], [], [], 0;
    }

    method CreateSegment(name: Name, cidrs: seq<Net>) returns (r: Result<(), Error>)
      modifies this
      ensures r.Ok? <==> CreatedWith(old(View()), name, cidrs).Some?
      ensures r.Ok? ==> View() == CreatedWith(old(View()), name, cidrs).value
      ensures r.Err? ==> View() == old(View())
    {
      if cidrs == [] {
        return Err(EmptyCidrs);
      }
      if name in segments {
        return Err(DuplicateName);
      }
      var inserted := InsertCidrs(segments, name, cidrs);
      if inserted.Err? {
        return Err(inserted.error);
      }
      segments, audit, revision := inserted.value, audit + [CreatedSegment(name)], revision + 1;
      return Ok(());
    }

    method DeleteSegment(name: Name, hasGateway: bool) returns (r: Result<(), Error>)
      modifies this
      ensures r.Ok? <==> DeletedFrom(old(View()), name, hasGateway).Some?
      ensures r.Ok? ==> View() == DeletedFrom(old(View()), name, hasGateway).value
      ensures r.Err? ==> View() == old(View())
    {
      if name !in segments {
        return Err(NoSegment);
      }
      if hasGateway {
        return Err(HasGateway);
      }
      segments, audit, revision := segments - {name}, audit + [DeletedSegment(name)], revision + 1;
      return Ok(());
    }

    method ApplySegment(p: Progress, existing: set<Name>, d: Declared) returns (r: Result<Progress, Error>)
      requires existing <= p.segments.Keys
      ensures r.Ok? <==> Advance(p, existing, d).Some?
      ensures r.Ok? ==> r.value == Advance(p, existing, d).value && existing <= r.value.segments.Keys
    {
      if d.name in existing {
        if CidrSet(p.segments[d.name]) == CidrSet(d.cidrs) {
          return Ok(p);
        }
        var replaced := InsertCidrs(p.segments, d.name, d.cidrs);
        if replaced.Err? {
          return Err(replaced.error);
        }
        return Ok(Progress(replaced.value, p.created, p.updated + 1, p.audit + [UpdatedCidrs(d.name)]));
      }
      if d.cidrs == [] {
        return Err(EmptyCidrs);
      }
      if d.name in p.segments {
        return Err(DuplicateName);
      }
      var inserted := InsertCidrs(p.segments, d.name, d.cidrs);
      if inserted.Err? {
        return Err(inserted.error);
      }
      return Ok(Progress(inserted.value, p.created + 1, p.updated, p.audit + [CreatedSegment(d.name)]));
    }

    method ApplyFabric(decls: seq<Declared>, own: Option<Source>, compile: Compiler) returns (r: Result<bool, Error>)
      modifies this
      ensures r.Ok? <==> Applied(old(View()), decls, own, compile).Some?
      ensures r.Ok? ==> View() == Applied(old(View()), decls, own, compile).value
      ensures r.Err? ==> View() == old(View())
    {
      var existing := segments.Keys;
      var p := Progress(segments, 0, 0, []);
      for i := 0 to |decls|
        invariant existing <= p.segments.Keys && View() == old(View())
        invariant AdvanceAll(p, existing, decls[i..]) == AdvanceAll(Start(View()), existing, decls)
      {
        assert decls[i..][1..] == decls[i + 1..];
        var next := ApplySegment(p, existing, decls[i]);
        if next.Err? {
          return Err(next.error);
        }
        p := next.value;
      }
      var compiled := Compiled(View(), p.segments, p.updated, own, compile);
      if compiled.None? {
        return Err(CompileError);
      }
      var changed := compiled.value != policies;
      if p.created == 0 && p.updated == 0 && !changed {
        return Ok(false);
      }
      audit := audit + p.audit + (if changed then [NewPolicy(|compiled.value|)] else []);
      segments, policies, revision := p.segments, compiled.value, revision + 1;
      return Ok(true);
    }
  }

  // ---- any run keeps CIDRs disjoint -------------------------------------

  datatype Op =
    | Create(name: Name, cidrs: seq<Net>)
    | Delete(name: Name, hasGateway: bool)
    | Apply(decls: seq<Declared>, own: Option<Source>)

  function Step(f: Fabric, op: Op, compile: Compiler): Fabric {
    var r := match op
             case Create(name, cidrs) => CreatedWith(f, name, cidrs)
             case Delete(name, hasGateway) => DeletedFrom(f, name, hasGateway)
             case Apply(decls, own) => Applied(f, decls, own, compile);
    if r.Some? then r.value else f
  }

  function Run(ops: seq<Op>, compile: Compiler): Fabric {
    if ops == [] then Fabric(map[], [], [], 0)
    else Step(Run(ops[..|ops| - 1], compile), ops[|ops| - 1], compile)
  }

  lemma {:induction false} AdvanceKeepsDisjoint(p: Progress, existing: set<Name>, decls: seq<Declared>)
    requires Disjoint(p.segments) && AdvanceAll(p, existing, decls).Some?
    ensures Disjoint(AdvanceAll(p, existing, decls).value.segments)
    decreases |decls|
  {
    if decls == [] {
    } else {
      var o := Outcome(p.segments, existing, decls[0]);
      if o.value != Same {
        AdmissibleKeepsDisjoint(p.segments, decls[0].name, decls[0].cidrs);
      }
      AdvanceKeepsDisjoint(Advance(p, existing, decls[0]).value, existing, decls[1..]);
    }
  }

  /** After any run of creates, deletes and applies, failed ones included, each
      address belongs to at most one registered CIDR. */
  lemma {:induction false} RunKeepsDisjoint(ops: seq<Op>, compile: Compiler)
    ensures Disjoint(Run(ops, compile).segments) && AddressesOwnedOnce(Run(ops, compile).segments)
  {
    if ops == [] {
    } else {
      RunKeepsDisjoint(ops[..|ops| - 1], compile);
      var f := Run(ops[..|ops| - 1], compile);
      match ops[|ops| - 1]
      case Create(name, cidrs) =>
        if CreatedWith(f, name, cidrs).Some? {
          AdmissibleKeepsDisjoint(f.segments, name, cidrs);
        }
      case Delete(_, _) =>
      case Apply(decls, own) =>
        if Applied(f, decls, own, compile).Some? {
          AdvanceKeepsDisjoint(Start(f), f.segments.Keys, decls);
        }
    }
    DisjointIffOwnedOnce(Run(ops, compile).segments);
  }

  // ---- applying again ---------------------------------------------------

  /** Entries with the same name declare the same CIDR set. */
  predicate NamesAgree(decls: seq<Declared>) {
    forall i, j :: 0 <= i < j < |decls| && decls[i].name == decls[j].name ==>
      CidrSet(decls[i].cidrs) == CidrSet(decls[j].cidrs)
  }

  /** Every declared segment is on file with exactly its declared set. */
  predicate InPlace(segments: Segments, decls: seq<Declared>) {
    forall i :: 0 <= i < |decls| ==>
      decls[i].name in segments && CidrSet(segments[decls[i].name]) == CidrSet(decls[i].cidrs)
  }

  lemma {:induction false} UntouchedStays(p: Progress, existing: set<Name>, decls: seq<Declared>, n: Name, s: set<Net>)
    requires AdvanceAll(p, existing, decls).Some?
    requires n in p.segments && CidrSet(p.segments[n]) == s
    requires forall i :: 0 <= i < |decls| && decls[i].name == n ==> CidrSet(decls[i].cidrs) == s
    ensures var q := AdvanceAll(p, existing, decls).value; n in q.segments && CidrSet(q.segments[n]) == s
    decreases |decls|
  {
    if decls == [] {
    } else {
      var p' := Advance(p, existing, decls[0]).value;
      assert n in p'.segments && CidrSet(p'.segments[n]) == s;
      assert forall i :: 0 <= i < |decls[1..]| ==> decls[1..][i] == decls[i + 1];
      UntouchedStays(p', existing, decls[1..], n, s);
    }
  }

  lemma {:induction false} AdvancePutsInPlace(p: Progress, existing: set<Name>, decls: seq<Declared>)
    requires AdvanceAll(p, existing, decls).Some? && NamesAgree(decls)
    ensures InPlace(AdvanceAll(p, existing, decls).value.segments, decls)
    decreases |decls|
  {
    if decls == [] {
    } else {
      var d, rest := decls[0], decls[1..];
      var p' := Advance(p, existing, d).value;
      assert forall i :: 0 <= i < |rest| ==> rest[i] == decls[i + 1];
      AdvancePutsInPlace(p', existing, rest);
      assert d.name in p'.segments && CidrSet(p'.segments[d.name]) == CidrSet(d.cidrs);
      UntouchedStays(p', existing, rest, d.name, CidrSet(d.cidrs));
      var q := AdvanceAll(p, existing, decls).value;
      forall i | 0 <= i < |decls|
        ensures decls[i].name in q.segments && CidrSet(q.segments[decls[i].name]) == CidrSet(decls[i].cidrs)
      {
        if i > 0 {
          assert rest[i - 1] == decls[i];
        }
      }
    }
  }

  lemma {:induction false} InPlaceChangesNothing(p: Progress, existing: set<Name>, decls: seq<Declared>)
    requires InPlace(p.segments, decls) && forall i :: 0 <= i < |decls| ==> decls[i].name in existing
    ensures AdvanceAll(p, existing, decls) == Some(p)
    decreases |decls|
  {
    if decls == [] {
    } else {
      assert forall i :: 0 <= i < |decls[1..]| ==> decls[1..][i] == decls[i + 1];
      InPlaceChangesNothing(p, existing, decls[1..]);
    }
  }

  /** The counters only grow, and stay put only if nothing was touched. */
  lemma {:induction false} NoCountsMeansInPlace(p: Progress, existing: set<Name>, decls: seq<Declared>)
    requires AdvanceAll(p, existing, decls).Some?
    ensures var q := AdvanceAll(p, existing, decls).value;
            && q.created >= p.created && q.updated >= p.updated
            && (q.created == p.created && q.updated == p.updated ==> q == p && InPlace(p.segments, decls))
    decreases |decls|
  {
    if decls == [] {
    } else {
      var p' := Advance(p, existing, decls[0]).value;
      NoCountsMeansInPlace(p', existing, decls[1..]);
      var q := AdvanceAll(p, existing, decls).value;
      if q.created == p.created && q.updated == p.updated {
        assert p' == p;
        forall i | 0 <= i < |decls|
          ensures decls[i].name in p.segments && CidrSet(p.segments[decls[i].name]) == CidrSet(decls[i].cidrs)
        {
          if i > 0 {
            assert decls[1..][i - 1] == decls[i];
          }
        }
      }
    }
  }

  lemma PolicyIsCurrent(f: Fabric, decls: seq<Declared>, own: Option<Source>, compile: Compiler)
    requires Applied(f, decls, own, compile).Some? && own.Some?
    ensures var f' := Applied(f, decls, own, compile).value;
            Compiled(f', f'.segments, 0, own, compile) == Some(f'.policies)
  {
    var p := AdvanceAll(Start(f), f.segments.Keys, decls).value;
    NoCountsMeansInPlace(Start(f), f.segments.Keys, decls);
    var f' := Applied(f, decls, own, compile).value;
    assert f'.segments == p.segments;
  }

  /** Re-running a successful apply writes nothing, exactly when entries that
      share a name agree. */
  lemma RerunIsNoOpIff(f: Fabric, decls: seq<Declared>, own: Option<Source>, compile: Compiler)
    requires Applied(f, decls, own, compile).Some?
    ensures var f' := Applied(f, decls, own, compile).value;
            Applied(f', decls, own, compile) == Some(f') <==> NamesAgree(decls)
  {
    var f' := Applied(f, decls, own, compile).value;
    var p := AdvanceAll(Start(f), f.segments.Keys, decls).value;
    NoCountsMeansInPlace(Start(f), f.segments.Keys, decls);
    assert f'.segments == p.segments;
    if NamesAgree(decls) {
      AdvancePutsInPlace(Start(f), f.segments.Keys, decls);
      InPlaceChangesNothing(Start(f'), f'.segments.Keys, decls);
      if own.Some? {
        PolicyIsCurrent(f, decls, own, compile);
      }
    }
    if Applied(f', decls, own, compile) == Some(f') {
      NoCountsMeansInPlace(Start(f'), f'.segments.Keys, decls);
      assert InPlace(f'.segments, decls);
    }
  }

  /** One update of one segment. */
  lemma UpdatesOne(p: Progress, existing: set<Name>, n: Name, cidrs: seq<Net>)
    requires n in existing && p.segments.Keys == {n} && PairwiseApart(cidrs)
    requires CidrSet(p.segments[n]) != CidrSet(cidrs)
    ensures Advance(p, existing, Declared(n, cidrs)) ==
            Some(Progress(map[n := cidrs], p.created, p.updated + 1, p.audit + [UpdatedCidrs(n)]))
  {
    assert Admissible(p.segments, n, cidrs);
    assert p.segments[n := cidrs] == map[n := cidrs];
  }

  lemma AdvancesTwo(p: Progress, existing: set<Name>, d1: Declared, d2: Declared, p1: Progress, p2: Progress)
    requires Advance(p, existing, d1) == Some(p1) && Advance(p1, existing, d2) == Some(p2)
    ensures AdvanceAll(p, existing, [d1, d2]) == Some(p2)
  {
    assert [d1, d2][1..] == [d2] && [d2][1..] == [];
    assert AdvanceAll(p1, existing, [d2]) == AdvanceAll(p2, existing, []);
  }

  lemma CreatesOne(n: Name, c: Net, compile: Compiler)
    ensures Run([Create(n, [c])], compile) == Fabric(map[n := [c]], [], [CreatedSegment(n)], 1)
  {
    assert [Create(n, [c])][..0] == [];
    assert Admissible(Run([], compile).segments, n, [c]);
  }

  /** An apply that names a segment with one CIDR and then with another: over the
      first it updates once, over its own result twice. */
  lemma UpdatesEachTime(f: Fabric, n: Name, a: Net, b: Net, compile: Compiler)
    requires a != b && f.policies == [] && (f.segments == map[n := [a]] || f.segments == map[n := [b]])
    ensures var times := if f.segments[n] == [a] then [UpdatedCidrs(n)] else [UpdatedCidrs(n), UpdatedCidrs(n)];
            Applied(f, [Declared(n, [a]), Declared(n, [b])], None, compile) ==
            Some(Fabric(map[n := [b]], [], f.audit + times, f.revision + 1))
  {
    var d1, d2 := Declared(n, [a]), Declared(n, [b]);
    var p := Start(f);
    assert a in CidrSet([a]) && a !in CidrSet([b]);
    assert p.audit + [UpdatedCidrs(n)] == [UpdatedCidrs(n)];
    if f.segments[n] == [a] {
      UpdatesOne(p, {n}, n, [b]);
      AdvancesTwo(p, {n}, d1, d2, p, Progress(map[n := [b]], 0, 1, [UpdatedCidrs(n)]));
    } else {
      var p1 := Progress(map[n := [a]], 0, 1, [UpdatedCidrs(n)]);
      UpdatesOne(p, {n}, n, [a]);
      UpdatesOne(p1, {n}, n, [b]);
      assert p1.audit + [UpdatedCidrs(n)] == [UpdatedCidrs(n), UpdatedCidrs(n)];
      AdvancesTwo(p, {n}, d1, d2, p1, Progress(map[n := [b]], 0, 2, [UpdatedCidrs(n), UpdatedCidrs(n)]));
    }
    var p2 := AdvanceAll(p, f.segments.Keys, [d1, d2]).value;
    assert f.audit + p2.audit + [] == f.audit + p2.audit;
  }

  /** So a segment created with the first CIDR, that apply, and the same apply again:
      both are accepted and the second writes too. */
  lemma RerunWrites(n: Name, a: Net, b: Net, compile: Compiler)
    requires a != b
    ensures var decls := [Declared(n, [a]), Declared(n, [b])];
            var f := Run([Create(n, [a])], compile);
            && Applied(f, decls, None, compile).Some?
            && var f' := Applied(f, decls, None, compile).value;
            Applied(f', decls, None, compile) ==
            Some(f'.(audit := f'.audit + [UpdatedCidrs(n), UpdatedCidrs(n)], revision := f'.revision + 1))
  {
    CreatesOne(n, a, compile);
    var f := Run([Create(n, [a])], compile);
    UpdatesEachTime(f, n, a, b, compile);
    var f' := Applied(f, [Declared(n, [a]), Declared(n, [b])], None, compile).value;
    assert f'.segments[n] != [a];
    UpdatesEachTime(f', n, a, b, compile);
  }

  // ---- policy versions --------------------------------------------------

  /** A successful apply adds at most one version: exactly when it compiled a
      source whose fingerprint differs from the latest; the new version carries
      that fingerprint. */
  lemma VersionsGrowByFingerprint(f: Fabric, decls: seq<Declared>, own: Option<Source>, compile: Compiler)
    requires Applied(f, decls, own, compile).Some?
    ensures var f' := Applied(f, decls, own, compile).value;
            var updated := AdvanceAll(Start(f), f.segments.Keys, decls).value.updated;
            match EffectiveSource(f, updated, own)
            case None => f'.policies == f.policies
            case Some(source) =>
              && compile(source, DefsOf(f'.segments)).Some?
              && var fp := compile(source, DefsOf(f'.segments)).value;
              f'.policies == if NewFingerprint(f.policies, fp) then f.policies + [Version(source, fp)] else f.policies
  {
    NoCountsMeansInPlace(Start(f), f.segments.Keys, decls);
    var p := AdvanceAll(Start(f), f.segments.Keys, decls).value;
    assert Applied(f, decls, own, compile).value.segments == p.segments;
  }

  /** The revision and the audit log move exactly when something changed. */
  lemma RevisionMovesIffChanged(f: Fabric, decls: seq<Declared>, own: Option<Source>, compile: Compiler)
    requires Applied(f, decls, own, compile).Some?
    ensures var f' := Applied(f, decls, own, compile).value;
            && (f'.revision == f.revision || f'.revision == f.revision + 1)
            && (f'.revision == f.revision <==> f' == f)
            && (f' == f <==> |f'.audit| == |f.audit|)
  {
    var p := AdvanceAll(Start(f), f.segments.Keys, decls).value;
    AuditCounts(Start(f), f.segments.Keys, decls);
    assert |p.audit| == p.created + p.updated;
  }

  lemma {:induction false} AuditCounts(p: Progress, existing: set<Name>, decls: seq<Declared>)
    requires AdvanceAll(p, existing, decls).Some?
    ensures var q := AdvanceAll(p, existing, decls).value;
            |q.audit| - |p.audit| == q.created + q.updated - p.created - p.updated
    decreases |decls|
  {
    if decls == [] {
    } else {
      AuditCounts(Advance(p, existing, decls[0]).value, existing, decls[1..]);
    }
  }

  // ---- a segment without CIDRs ------------------------------------------

  predicate EmptyIn(segments: Segments, n: Name) {
    n in segments && segments[n] == []
  }

  /** The CIDRs the last declaration of a name gives it. */
  function LastDeclared(decls: seq<Declared>, n: Name): Option<seq<Net>> {
    if decls == [] then None
    else if LastDeclared(decls[1..], n).Some? then LastDeclared(decls[1..], n)
    else if decls[0].name == n then Some(decls[0].cidrs)
    else None
  }

  lemma EmptyStep(p: Progress, existing: set<Name>, d: Declared, n: Name)
    requires Advance(p, existing, d).Some?
    ensures EmptyIn(Advance(p, existing, d).value.segments, n) <==>
            if d.name == n then d.cidrs == [] else EmptyIn(p.segments, n)
  {
    if d.name in p.segments {
      EmptySets(d.cidrs, p.segments[d.name]);
    }
  }

  lemma {:induction false} EmptyAfterAdvance(p: Progress, existing: set<Name>, decls: seq<Declared>, n: Name)
    requires AdvanceAll(p, existing, decls).Some?
    ensures EmptyIn(AdvanceAll(p, existing, decls).value.segments, n) <==>
            if LastDeclared(decls, n).Some? then LastDeclared(decls, n).value == [] else EmptyIn(p.segments, n)
    decreases |decls|
  {
    if decls == [] {
    } else {
      EmptyStep(p, existing, decls[0], n);
      EmptyAfterAdvance(Advance(p, existing, decls[0]).value, existing, decls[1..], n);
    }
  }

  lemma EmptySets(a: seq<Net>, b: seq<Net>)
    ensures CidrSet(a) == CidrSet(b) ==> (a == [] <==> b == [])
  {
    if a != [] {
      assert a[0] in CidrSet(a);
    }
    if b != [] {
      assert b[0] in CidrSet(b);
    }
  }

  /** Creation refuses an empty CIDR list, but the replace path does not: after
      a successful apply a segment has no CIDRs exactly when its last declaration
      gives it none, or it had none and was not declared. */
  lemma EmptyAfterApplyIff(f: Fabric, decls: seq<Declared>, own: Option<Source>, compile: Compiler, n: Name)
    requires Applied(f, decls, own, compile).Some?
    ensures EmptyIn(Applied(f, decls, own, compile).value.segments, n) <==>
            if LastDeclared(decls, n).Some? then LastDeclared(decls, n).value == [] else EmptyIn(f.segments, n)
  {
    EmptyAfterAdvance(Start(f), f.segments.Keys, decls, n);
    NoCountsMeansInPlace(Start(f), f.segments.Keys, decls);
  }

  /** One create and one apply get there. */
  lemma EmptySegmentStored(n: Name, c: Net, compile: Compiler)
    ensures Run([Create(n, [c]), Apply([Declared(n, [])], None)], compile).segments == map[n := []]
  {
    var ops := [Create(n, [c]), Apply([Declared(n, [])], None)];
    assert ops[..1][..0] == [] && ops[..|ops| - 1] == ops[..1];
    var f0 := Run([], compile);
    assert Admissible(f0.segments, n, [c]);
    var f1 := Run(ops[..1], compile);
    assert f1.segments == map[n := [c]];
    assert c in CidrSet([c]) && c !in CidrSet([]);
    assert Admissible(f1.segments, n, []);
    var decls := [Declared(n, [])];
    assert decls[1..] == [];
    var p := Progress(f1.segments[n := []], 0, 1, [UpdatedCidrs(n)]);
    assert Outcome(f1.segments, f1.segments.Keys, decls[0]) == Some(Updated);
    assert Start(f1).audit + [UpdatedCidrs(n)] == [UpdatedCidrs(n)];
    assert Advance(Start(f1), f1.segments.Keys, decls[0]) == Some(p);
    assert AdvanceAll(Start(f1), f1.segments.Keys, decls) == AdvanceAll(p, f1.segments.Keys, []);
  }
}
