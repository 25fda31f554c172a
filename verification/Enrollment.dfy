/** Enrollment tokens, gateways and certificates on the controller: enrolling,
    rebinding a segment, draining a gateway and revoking a certificate, each
    one transaction. */
module Enrollment {
  import opened Outcomes
  import opened Nets

  type Secret = string
  type Serial = string
  type SegmentId = nat
  type GatewayId = nat
  type RelayId = nat
  type Time = nat

  /** A gateway token is bound to a CIDR set, a rebind token to a segment. */
  datatype Kind = ForGateway(bound: set<Net>) | ForRebind(segment: Option<SegmentId>) | ForRelay

  datatype Token = Token(secret: Secret, kind: Kind, expiresAt: Time, usedAt: Option<Time>)

  datatype Status = Active | Replaced | Removed

  datatype Gateway = Gateway(segment: SegmentId, name: string, status: Status)

  datatype Subject = OfGateway(g: GatewayId) | OfRelay(r: RelayId)

  datatype Cert = Cert(subject: Subject, revokedAt: Option<Time>)

  /** Row ids count up: gateways are `0 .. |gateways|`, relays likewise. */
  datatype Db = Db(
    tokens: seq<Token>, gateways: seq<Gateway>, relays: seq<string>, certs: map<Serial, Cert>, revision: nat)

  datatype Error = NoMatchingSegment | InvalidToken | BoundCidrMismatch | SegmentAlreadyBound | Conflict | NoSuchGateway

  /** The registered CIDRs and the segment each belongs to. */
  type Owners = map<Net, SegmentId>

  // ---- tokens -----------------------------------------------------------

  predicate Redeemable(t: Token, secret: Secret, now: Time, relay: bool) {
    t.secret == secret && t.usedAt.None? && t.expiresAt > now && (t.kind.ForRelay? <==> relay)
  }

  /** The first token that may be redeemed, or the length. */
  function FindToken(tokens: seq<Token>, secret: Secret, now: Time, relay: bool): (i: nat)
    ensures i <= |tokens| && (i < |tokens| ==> Redeemable(tokens[i], secret, now, relay))
    ensures forall k :: 0 <= k < i ==> !Redeemable(tokens[k], secret, now, relay)
  {
    if tokens == [] || Redeemable(tokens[0], secret, now, relay) then 0
    else 1 + FindToken(tokens[1..], secret, now, relay)
  }

  function Spent(tokens: seq<Token>, i: nat, now: Time): seq<Token>
    requires i < |tokens|
  {
    tokens[i := tokens[i].(usedAt := Some(now))]
  }

  // ---- the segment a CIDR list names ------------------------------------

  predicate AllOwnedBy(owners: Owners, cidrs: seq<Net>, s: SegmentId) {
    forall i :: 0 <= i < |cidrs| ==> cidrs[i] in owners && owners[cidrs[i]] == s
  }

  function Resolve(owners: Owners, cidrs: seq<Net>): Option<SegmentId> {
    if cidrs != [] && cidrs[0] in owners && AllOwnedBy(owners, cidrs, owners[cidrs[0]]) then Some(owners[cidrs[0]])
    else None
  }

  method ResolveSegment(owners: Owners, cidrs: seq<Net>) returns (segment: Option<SegmentId>)
    ensures segment == Resolve(owners, cidrs)
    ensures segment.Some? <==> cidrs != [] && exists s: SegmentId :: AllOwnedBy(owners, cidrs, s)
  {
    segment := None;
    for i := 0 to |cidrs|
      invariant segment.Some? <==> i > 0
      invariant segment.Some? ==> AllOwnedBy(owners, cidrs[..i], segment.value) && segment.value == owners[cidrs[0]]
      invariant i > 0 ==> cidrs[0] in owners
    {
      if cidrs[i] !in owners {
        assert forall s: SegmentId :: !AllOwnedBy(owners, cidrs, s);
        return None;
      }
      if segment.None? {
        segment := Some(owners[cidrs[i]]);
      } else if owners[cidrs[i]] != segment.value {
        assert forall s: SegmentId :: !AllOwnedBy(owners, cidrs, s);
        return None;
      }
    }
    assert cidrs[..|cidrs|] == cidrs;
    assert segment.Some? ==> AllOwnedBy(owners, cidrs, segment.value);
  }

  // ---- revoking ---------------------------------------------------------

  predicate ActiveIn(gateways: seq<Gateway>, g: GatewayId, s: SegmentId) {
    g < |gateways| && gateways[g].status == Active && gateways[g].segment == s
  }

  predicate Occupied(gateways: seq<Gateway>, s: SegmentId) {
    exists g :: 0 <= g < |gateways| && ActiveIn(gateways, g, s)
  }

  /** Every certificate of the listed gateways that is not revoked yet, revoked;
      the others as they were. */
  function Revoked(certs: map<Serial, Cert>, gone: set<GatewayId>, now: Time): map<Serial, Cert> {
    map c | c in certs ::
      if certs[c].subject.OfGateway? && certs[c].subject.g in gone && certs[c].revokedAt.None?
      then certs[c].(revokedAt := Some(now)) else certs[c]
  }

  function Occupants(gateways: seq<Gateway>, s: SegmentId): set<GatewayId> {
    set g | 0 <= g < |gateways| && ActiveIn(gateways, g, s)
  }

  function Marked(gateways: seq<Gateway>, gone: set<GatewayId>, st: Status): (r: seq<Gateway>)
    ensures |r| == |gateways|
  {
    seq(|gateways|, g requires 0 <= g < |gateways| =>
      if g in gone then gateways[g].(status := st) else gateways[g])
  }

  predicate NameTaken(gateways: seq<Gateway>, name: string) {
    exists g :: 0 <= g < |gateways| && gateways[g].name == name
  }

  // ---- the transactions as functions ------------------------------------

  datatype GatewayRequest = GatewayRequest(
    secret: Secret, cidrs: seq<Net>, name: string, serial: Serial, now: Time)

  /** The checks before anything is written. */
  function Authorize(db: Db, owners: Owners, req: GatewayRequest): Result<(nat, SegmentId), Error> {
    if req.cidrs == [] then Err(NoMatchingSegment)
    else
      var i := FindToken(db.tokens, req.secret, req.now, false);
      if i == |db.tokens| then Err(InvalidToken)
      else
        var kind := db.tokens[i].kind;
        var declared := set c | c in req.cidrs;
        if kind.ForGateway? && (kind.bound == {} || declared != kind.bound) then Err(BoundCidrMismatch)
        else
          match Resolve(owners, req.cidrs)
          case None => Err(NoMatchingSegment)
          case Some(s) =>
            if kind.ForRebind? && kind.segment != Some(s) then Err(BoundCidrMismatch)
            else if kind.ForGateway? && Occupied(db.gateways, s) then Err(SegmentAlreadyBound)
            else if NameTaken(db.gateways, req.name) || req.serial in db.certs then Err(Conflict)
            else Ok((i, s))
  }

  function Enrolled(db: Db, owners: Owners, req: GatewayRequest): Db {
    match Authorize(db, owners, req)
    case Err(_) => db
    case Ok((i, s)) =>
      var gone := if db.tokens[i].kind.ForRebind? then Occupants(db.gateways, s) else {};
      Db(Spent(db.tokens, i, req.now),
         Marked(db.gateways, gone, Replaced) + [Gateway(s, req.name, Active)],
         db.relays,
         Revoked(db.certs, gone, req.now)[req.serial := Cert(OfGateway(|db.gateways|), None)],
         db.revision + 1)
  }

  datatype RelayRequest = RelayRequest(secret: Secret, name: string, serial: Serial, now: Time)

  predicate RelayAllowed(db: Db, req: RelayRequest) {
    && FindToken(db.tokens, req.secret, req.now, true) < |db.tokens|
    && req.name !in db.relays && req.serial !in db.certs
  }

  function RelayEnrolled(db: Db, req: RelayRequest): Db {
    if !RelayAllowed(db, req) then db
    else
      Db(Spent(db.tokens, FindToken(db.tokens, req.secret, req.now, true), req.now),
         db.gateways, db.relays + [req.name],
         db.certs[req.serial := Cert(OfRelay(|db.relays|), None)],
         db.revision + 1)
  }

  function Drained(db: Db, g: GatewayId, now: Time): Db {
    if g >= |db.gateways| then db
    else
      db.(gateways := Marked(db.gateways, {g}, Removed), certs := Revoked(db.certs, {g}, now),
          revision := db.revision + 1)
  }

  function CertRevoked(db: Db, serial: Serial, now: Time): Db {
    if serial !in db.certs then db
    else
      var c := db.certs[serial];
      db.(certs := db.certs[serial := if c.revokedAt.None? then c.(revokedAt := Some(now)) else c],
          revision := db.revision + 1)
  }

  class Store {
    var tokens: seq<Token>
    var gateways: seq<Gateway>
    var relays: seq<string>
    var certs: map<Serial, Cert>
    var revision: nat

    function View(): Db
      reads this
    {
      Db(tokens, gateways, relays, certs, revision)
    }

    constructor ()
      ensures View() == Db([], [], [], map[], 0)
    {
      tokens, gateways, relays, certs, revision := [], [], [], map[], 0;
    }

    method SelectToken(secret: Secret, now: Time, relay: bool) returns (i: nat)
      ensures i == FindToken(tokens, secret, now, relay)
    {
      i := 0;
      while i < |tokens| && !Redeemable(tokens[i], secret, now, relay)
        invariant i <= |tokens|
        invariant i + FindToken(tokens[i..], secret, now, relay) == FindToken(tokens, secret, now, relay)
      {
        assert tokens[i..][1..] == tokens[i + 1..];
        i := i + 1;
      }
    }

    /** Mark the gateways in `gone` and revoke what they still hold. */
    method Retire(gone: set<GatewayId>, st: Status, now: Time) returns (serials: set<Serial>)
      modifies `gateways, `certs
      ensures gateways == Marked(old(gateways), gone, st) && certs == Revoked(old(certs), gone, now)
      ensures forall c :: c in serials <==>
                c in certs && certs[c].revokedAt.Some? && old(certs)[c].revokedAt.None?
    {
      serials := set c | c in certs && certs[c].subject.OfGateway? && certs[c].subject.g in gone &&
                         certs[c].revokedAt.None?;
      var left := serials;
      while left != {}
        invariant left <= serials && certs.Keys == old(certs).Keys && gateways == old(gateways)
        invariant forall c :: c in certs ==>
          certs[c] == if c in serials - left then old(certs)[c].(revokedAt := Some(now)) else old(certs)[c]
        decreases |left|
      {
        var c :| c in left;
        certs := certs[c := certs[c].(revokedAt := Some(now))];
        left := left - {c};
      }
      assert certs == Revoked(old(certs), gone, now) by {
        assert forall c :: c in certs ==> certs[c] == Revoked(old(certs), gone, now)[c];
      }
      gateways := Marked(gateways, gone, st);
    }

    method EnrollGateway(owners: Owners, req: GatewayRequest) returns (r: Result<(SegmentId, set<Serial>), Error>)
      modifies this
      ensures View() == Enrolled(old(View()), owners, req)
      ensures r.Ok? <==> Authorize(old(View()), owners, req).Ok?
      ensures r.Err? ==> r.error == Authorize(old(View()), owners, req).error
      ensures r.Ok? ==>
                forall c :: c in r.value.1 <==>
                  c in old(certs) && old(certs)[c].revokedAt.None? && c in certs && certs[c].revokedAt.Some?
    {
      if req.cidrs == [] {
        return Err(NoMatchingSegment);
      }
      var i := SelectToken(req.secret, req.now, false);
      if i == |tokens| {
        return Err(InvalidToken);
      }
      var kind := tokens[i].kind;
      if kind.ForGateway? {
        var declared := set c | c in req.cidrs;
        if kind.bound == {} || declared != kind.bound {
          return Err(BoundCidrMismatch);
        }
      }
      var segment := ResolveSegment(owners, req.cidrs);
      if segment.None? {
        return Err(NoMatchingSegment);
      }
      var s := segment.value;
      if kind.ForRebind? && kind.segment != Some(s) {
        return Err(BoundCidrMismatch);
      }
      if kind.ForGateway? && Occupied(gateways, s) {
        return Err(SegmentAlreadyBound);
      }
      if NameTaken(gateways, req.name) || req.serial in certs {
        return Err(Conflict);
      }
      var gone := if kind.ForRebind? then Occupants(gateways, s) else {};
      var serials := Retire(gone, Replaced, req.now);
      certs := certs[req.serial := Cert(OfGateway(|gateways|), None)];
      gateways := gateways + [Gateway(s, req.name, Active)];
      tokens := tokens[i := tokens[i].(usedAt := Some(req.now))];
      revision := revision + 1;
      return Ok((s, serials));
    }

    method EnrollRelay(req: RelayRequest) returns (ok: bool)
      modifies this
      ensures View() == RelayEnrolled(old(View()), req) && ok == RelayAllowed(old(View()), req)
    {
      var i := SelectToken(req.secret, req.now, true);
      if i == |tokens| || req.name in relays || req.serial in certs {
        return false;
      }
      certs := certs[req.serial := Cert(OfRelay(|relays|), None)];
      relays := relays + [req.name];
      tokens := tokens[i := tokens[i].(usedAt := Some(req.now))];
      revision := revision + 1;
      return true;
    }

    method DrainGateway(g: GatewayId, now: Time) returns (serials: Option<set<Serial>>)
      modifies this
      ensures View() == Drained(old(View()), g, now) && (serials.Some? <==> g < |old(gateways)|)
      ensures serials.Some? ==>
                forall c :: c in serials.value <==>
                  c in old(certs) && old(certs)[c].revokedAt.None? && c in certs && certs[c].revokedAt.Some?
    {
      if g >= |gateways| {
        return None;
      }
      var gone := Retire({g}, Removed, now);
      revision := revision + 1;
      return Some(gone);
    }

    method RevokeCert(serial: Serial, now: Time) returns (found: bool)
      modifies this
      ensures View() == CertRevoked(old(View()), serial, now) && found == (serial in old(certs))
    {
      if serial !in certs {
        return false;
      }
      if certs[serial].revokedAt.None? {
        certs := certs[serial := certs[serial].(revokedAt := Some(now))];
      }
      revision := revision + 1;
      return true;
    }
  }

  // ---- runs -------------------------------------------------------------

  datatype Op =
    | MintToken(secret: Secret, kind: Kind, expiresAt: Time)
    | EnrollGw(owners: Owners, gw: GatewayRequest)
    | EnrollRel(relay: RelayRequest)
    | Drain(g: GatewayId, now: Time)
    | Revoke(serial: Serial, now: Time)

  function Step(db: Db, op: Op): Db {
    match op
    case MintToken(secret, kind, expiresAt) => db.(tokens := db.tokens + [Token(secret, kind, expiresAt, None)])
    case EnrollGw(owners, req) => Enrolled(db, owners, req)
    case EnrollRel(req) => RelayEnrolled(db, req)
    case Drain(g, now) => Drained(db, g, now)
    case Revoke(serial, now) => CertRevoked(db, serial, now)
  }

  function Run(ops: seq<Op>): Db {
    if ops == [] then Db([], [], [], map[], 0) else Step(Run(ops[..|ops| - 1]), ops[|ops| - 1])
  }

  // ---- tokens are spent once --------------------------------------------

  function UsedCount(tokens: seq<Token>): nat {
    if tokens == [] then 0
    else UsedCount(tokens[..|tokens| - 1]) + if tokens[|tokens| - 1].usedAt.Some? then 1 else 0
  }

  lemma {:induction false} SpendCounts(tokens: seq<Token>, i: nat, now: Time)
    requires i < |tokens| && tokens[i].usedAt.None?
    ensures UsedCount(Spent(tokens, i, now)) == UsedCount(tokens) + 1
  {
    var m := |tokens| - 1;
    var spent := Spent(tokens, i, now);
    if i == m {
      assert spent[..m] == tokens[..m];
    } else {
      assert spent[..m] == Spent(tokens[..m], i, now);
      SpendCounts(tokens[..m], i, now);
    }
  }

  lemma StepTokens(db: Db, op: Op)
    ensures |Step(db, op).tokens| >= |db.tokens|
    ensures UsedCount(Step(db, op).tokens) - UsedCount(db.tokens)
            == |Step(db, op).gateways| + |Step(db, op).relays| - |db.gateways| - |db.relays|
    ensures forall i :: 0 <= i < |db.tokens| && db.tokens[i].usedAt.Some? ==> Step(db, op).tokens[i] == db.tokens[i]
  {
    match op
    case MintToken(secret, kind, expiresAt) =>
      assert (db.tokens + [Token(secret, kind, expiresAt, None)])[..|db.tokens|] == db.tokens;
    case EnrollGw(owners, req) =>
      if Authorize(db, owners, req).Ok? {
        SpendCounts(db.tokens, Authorize(db, owners, req).value.0, req.now);
      }
    case EnrollRel(req) =>
      if RelayAllowed(db, req) {
        SpendCounts(db.tokens, FindToken(db.tokens, req.secret, req.now, true), req.now);
      }
    case _ =>
  }

  /** Over any run the tokens spent are exactly as many as the gateways and
      relays admitted: no token twice, none by a call that was rejected. */
  lemma {:induction false} OneTokenPerEnrollment(ops: seq<Op>)
    ensures UsedCount(Run(ops).tokens) == |Run(ops).gateways| + |Run(ops).relays|
  {
    if ops == [] {
    } else {
      OneTokenPerEnrollment(ops[..|ops| - 1]);
      StepTokens(Run(ops[..|ops| - 1]), ops[|ops| - 1]);
    }
  }

  /** A spent token is never redeemed again and never changes. */
  lemma {:induction false} SpentStaysSpent(ops: seq<Op>, more: seq<Op>, i: nat)
    requires i < |Run(ops).tokens| && Run(ops).tokens[i].usedAt.Some?
    ensures i < |Run(ops + more).tokens| && Run(ops + more).tokens[i] == Run(ops).tokens[i]
    decreases |more|
  {
    if more == [] {
      assert ops + more == ops;
    } else {
      var less := more[..|more| - 1];
      assert (ops + more)[..|ops + more| - 1] == ops + less;
      SpentStaysSpent(ops, less, i);
      StepTokens(Run(ops + less), more[|more| - 1]);
    }
  }

  // ---- gateways and certificates ----------------------------------------

  predicate OneActivePerSegment(gateways: seq<Gateway>) {
    forall g, h :: 0 <= g < h < |gateways| && gateways[g].status == Active && gateways[h].status == Active ==>
      gateways[g].segment != gateways[h].segment
  }

  /** A gateway that was replaced or removed holds no valid certificate. */
  predicate RetiredAreRevoked(db: Db) {
    forall c :: c in db.certs && db.certs[c].subject.OfGateway? ==>
      && db.certs[c].subject.g < |db.gateways|
      && (db.gateways[db.certs[c].subject.g].status != Active ==> db.certs[c].revokedAt.Some?)
  }

  lemma EnrollKeeps(db: Db, owners: Owners, req: GatewayRequest)
    requires OneActivePerSegment(db.gateways) && RetiredAreRevoked(db)
    ensures OneActivePerSegment(Enrolled(db, owners, req).gateways) && RetiredAreRevoked(Enrolled(db, owners, req))
  {
    var a := Authorize(db, owners, req);
    if a.Ok? {
      var s := a.value.1;
      var db' := Enrolled(db, owners, req);
      var n := |db.gateways|;
      forall g | 0 <= g < n && db'.gateways[g].status == Active ensures db'.gateways[g].segment != s {
        assert db'.gateways[g] == db.gateways[g];
        assert !ActiveIn(db.gateways, g, s);
      }
    }
  }

  /** Over any run: at most one active gateway per segment, and every replaced or
      removed gateway has only revoked certificates. */
  lemma {:induction false} GatewaysStaySound(ops: seq<Op>)
    ensures OneActivePerSegment(Run(ops).gateways) && RetiredAreRevoked(Run(ops))
  {
    if ops == [] {
    } else {
      GatewaysStaySound(ops[..|ops| - 1]);
      var db := Run(ops[..|ops| - 1]);
      match ops[|ops| - 1]
      case EnrollGw(owners, req) => EnrollKeeps(db, owners, req);
      case _ =>
    }
  }

  function RevokedSet(db: Db): set<Serial> {
    set c | c in db.certs && db.certs[c].revokedAt.Some?
  }

  lemma RevocationStep(db: Db, op: Op, c: Serial)
    requires c in RevokedSet(db)
    ensures c in Step(db, op).certs && Step(db, op).certs[c] == db.certs[c]
  {
  }

  /** Revocation is permanent, down to its time stamp. */
  lemma {:induction false} RevocationIsPermanent(ops: seq<Op>, more: seq<Op>, c: Serial)
    requires c in RevokedSet(Run(ops))
    ensures c in RevokedSet(Run(ops + more)) && Run(ops + more).certs[c] == Run(ops).certs[c]
    decreases |more|
  {
    if more == [] {
      assert ops + more == ops;
    } else {
      var less := more[..|more| - 1];
      assert (ops + more)[..|ops + more| - 1] == ops + less;
      RevocationIsPermanent(ops, less, c);
      RevocationStep(Run(ops + less), more[|more| - 1], c);
    }
  }

  // ---- what a token may do ----------------------------------------------

  /** A gateway token gets in only with exactly its bound CIDRs, onto a free
      segment, and displaces nobody; a rebind token only onto its own segment. */
  lemma TokenScope(db: Db, owners: Owners, req: GatewayRequest)
    requires Authorize(db, owners, req).Ok?
    ensures var (i, s) := Authorize(db, owners, req).value;
            var db' := Enrolled(db, owners, req);
            && AllOwnedBy(owners, req.cidrs, s)
            && db'.gateways[|db.gateways|] == Gateway(s, req.name, Active)
            && match db.tokens[i].kind
               case ForGateway(bound) =>
                 && bound == (set c | c in req.cidrs) && !Occupied(db.gateways, s)
                 && db'.gateways[..|db.gateways|] == db.gateways
               case ForRebind(segment) => segment == Some(s)
               case ForRelay => false
  {
    var (i, s) := Authorize(db, owners, req).value;
    if db.tokens[i].kind.ForGateway? {
      assert Marked(db.gateways, {}, Replaced) == db.gateways;
    }
  }

  /** A rebind leaves every gateway of another segment, and every certificate
      those hold, as they were. */
  lemma RebindTouchesOwnSegmentOnly(db: Db, owners: Owners, req: GatewayRequest, h: GatewayId)
    requires Authorize(db, owners, req).Ok? && RetiredAreRevoked(db)
    requires h < |db.gateways| && db.gateways[h].segment != Authorize(db, owners, req).value.1
    ensures Enrolled(db, owners, req).gateways[h] == db.gateways[h]
    ensures forall c :: c in db.certs && db.certs[c].subject == OfGateway(h) ==>
              c in Enrolled(db, owners, req).certs && Enrolled(db, owners, req).certs[c] == db.certs[c]
  {
  }

  /** And in its own segment it displaces exactly the occupant, whose
      certificates are all revoked. */
  lemma RebindReplacesOccupant(db: Db, owners: Owners, req: GatewayRequest, h: GatewayId)
    requires Authorize(db, owners, req).Ok? && RetiredAreRevoked(db)
    requires db.tokens[Authorize(db, owners, req).value.0].kind.ForRebind?
    requires ActiveIn(db.gateways, h, Authorize(db, owners, req).value.1)
    ensures Enrolled(db, owners, req).gateways[h].status == Replaced
    ensures forall c :: c in db.certs && db.certs[c].subject == OfGateway(h) ==>
              c in RevokedSet(Enrolled(db, owners, req))
  {
  }
}
