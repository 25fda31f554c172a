/** What the controller tells others: the delta each change becomes, the key
    rows a delta may advertise, and the revocation-only stream a relay builds
    its denylist from. */
module Projection {
  import opened Outcomes
  import T = EpochTable
  import E = Enrollment

  type Serial = E.Serial
  type GatewayId = nat

  datatype KeyRow = KeyRow(epoch: nat, pubkey: string, state: T.KeyState)

  datatype Peer = Peer(
    g: GatewayId, segment: string, keys: seq<KeyRow>, candidates: seq<string>, allowedIps: seq<string>)

  datatype Change =
    | GatewayEnrolled(g: GatewayId, segment: string, allowedIps: seq<string>, serials: set<Serial>, revision: nat)
    | KeyRotated(peer: Peer, revision: nat)
    | GatewayDrained(g: GatewayId, serials: set<Serial>, revision: nat)
    | EndpointObserved(peer: Peer, revision: nat)
    | CertRevoked(serial: Serial, revision: nat)
    | PolicyUpdated(version: nat, ir: string, revision: nat)
    | SegmentCidrsChanged(peer: Peer, revision: nat)
    | RelaysChanged(relays: seq<string>, revision: nat)

  datatype Delta = Delta(
    revision: nat, upserted: seq<Peer>, removed: seq<GatewayId>, relays: seq<string>, relaysUpdated: bool,
    policyIr: string, policyVersion: nat, serials: set<Serial>)

  // ---- deltas -----------------------------------------------------------

  predicate Awaiting(k: KeyRow) {
    k.state == T.Pending && k.pubkey == T.SENTINEL
  }

  function Advertisable(keys: seq<KeyRow>): seq<KeyRow> {
    if keys == [] then []
    else (if Awaiting(keys[0]) then [] else [keys[0]]) + Advertisable(keys[1..])
  }

  function Nothing(revision: nat): Delta {
    Delta(revision, [], [], [], false, "", 0, {})
  }

  function Refreshed(p: Peer): Peer {
    p.(keys := Advertisable(p.keys))
  }

  function DeltaFor(c: Change): Delta {
    match c
    case GatewayEnrolled(g, segment, ips, serials, revision) =>
      Nothing(revision).(upserted := [Peer(g, segment, [], [], ips)], serials := serials)
    case KeyRotated(peer, revision) => Nothing(revision).(upserted := [Refreshed(peer)])
    case GatewayDrained(g, serials, revision) => Nothing(revision).(removed := [g], serials := serials)
    case EndpointObserved(peer, revision) => Nothing(revision).(upserted := [Refreshed(peer)])
    case CertRevoked(serial, revision) => Nothing(revision).(serials := {serial})
    case PolicyUpdated(version, ir, revision) => Nothing(revision).(policyIr := ir, policyVersion := version)
    case SegmentCidrsChanged(peer, revision) => Nothing(revision).(upserted := [Refreshed(peer)])
    case RelaysChanged(relays, revision) => Nothing(revision).(relays := relays, relaysUpdated := true)
  }

  function RelayDelta(c: Change): Option<Delta> {
    match c
    case CertRevoked(serial, revision) => Some(Nothing(revision).(serials := {serial}))
    case GatewayDrained(_, serials, revision) =>
      if serials == {} then None else Some(Nothing(revision).(serials := serials))
    case GatewayEnrolled(_, _, _, serials, revision) =>
      if serials == {} then None else Some(Nothing(revision).(serials := serials))
    case _ => None
  }

  lemma {:induction false} AdvertisesExactly(keys: seq<KeyRow>, k: KeyRow)
    ensures k in Advertisable(keys) <==> k in keys && !Awaiting(k)
  {
    if keys == [] {
    } else {
      AdvertisesExactly(keys[1..], k);
    }
  }

  /** No delta, whatever the change, ever carries a key still awaited. */
  lemma NoAwaitedKeyAdvertised(c: Change, i: nat, k: KeyRow)
    requires i < |DeltaFor(c).upserted| && k in DeltaFor(c).upserted[i].keys
    ensures !Awaiting(k)
  {
    if c.KeyRotated? || c.EndpointObserved? || c.SegmentCidrsChanged? {
      AdvertisesExactly(c.peer.keys, k);
    }
  }

  /** What a relay is sent is what a gateway is sent with everything but the
      revocations erased, and nothing at all when there are none. */
  lemma RelaySeesOnlyRevocations(c: Change)
    ensures RelayDelta(c) ==
            if DeltaFor(c).serials == {} then None
            else Some(Nothing(DeltaFor(c).revision).(serials := DeltaFor(c).serials))
  {
  }

  // ---- a relay's denylist -----------------------------------------------

  /** The relay subscribes, then gets a snapshot, then what queues up. */
  datatype Stream = Closed | Open(queue: seq<Change>, snapshotSent: bool)

  /** `unpublished`: committed but not yet broadcast; `missed`: revocations whose
      broadcast was skipped since the last snapshot. */
  datatype State = State(
    db: E.Db, unpublished: seq<Change>, stream: Stream, deny: set<Serial>, missed: set<Serial>)

  datatype Event =
    | Commit(op: E.Op)
    | Other(c: Change)
    | Publish
    | Skip
    | Subscribe
    | Snapshot
    | Receive
    | Close

  predicate Enabled(s: State, ev: Event) {
    match ev
    case Other(c) => DeltaFor(c).serials == {}
    case Publish => s.unpublished != []
    case Skip => s.unpublished != []
    case Snapshot => s.stream.Open? && !s.stream.snapshotSent
    case Receive => s.stream.Open? && s.stream.snapshotSent && s.stream.queue != []
    case _ => true
  }

  function NewlyRevoked(db: E.Db, op: E.Op): set<Serial> {
    E.RevokedSet(E.Step(db, op)) - E.RevokedSet(db)
  }

  /** The certificates some gateways still hold. */
  function StillHeld(db: E.Db, gone: set<GatewayId>): set<Serial> {
    set c | c in db.certs && db.certs[c].subject.OfGateway? && db.certs[c].subject.g in gone
            && db.certs[c].revokedAt.None?
  }

  /** The gateways an enrollment displaces. */
  function Displaced(db: E.Db, owners: E.Owners, req: E.GatewayRequest): set<GatewayId>
    requires E.Authorize(db, owners, req).Ok?
  {
    var (i, s) := E.Authorize(db, owners, req).value;
    if db.tokens[i].kind.ForRebind? then E.Occupants(db.gateways, s) else {}
  }

  /** The broadcast each transaction is followed by: what the gateways leaving it
      held, or the one serial named. */
  function Announced(db: E.Db, op: E.Op): seq<Change> {
    var rev := E.Step(db, op).revision;
    match op
    case EnrollGw(owners, req) =>
      if E.Authorize(db, owners, req).Ok? then
        [GatewayEnrolled(|db.gateways|, "", [], StillHeld(db, Displaced(db, owners, req)), rev)]
      else []
    case Drain(g, _) => if g < |db.gateways| then [GatewayDrained(g, StillHeld(db, {g}), rev)] else []
    case Revoke(serial, _) => if serial in db.certs then [CertRevoked(serial, rev)] else []
    case _ => []
  }

  function Denied(deny: set<Serial>, c: Change): set<Serial> {
    match RelayDelta(c)
    case Some(d) => deny + d.serials
    case None => deny
  }

  function Step(s: State, ev: Event): State
    requires Enabled(s, ev)
  {
    match ev
    case Commit(op) => s.(db := E.Step(s.db, op), unpublished := s.unpublished + Announced(s.db, op))
    case Other(c) => s.(unpublished := s.unpublished + [c])
    case Publish =>
      var next := s.(unpublished := s.unpublished[1..]);
      if s.stream.Open? then next.(stream := s.stream.(queue := s.stream.queue + [s.unpublished[0]])) else next
    case Skip => s.(unpublished := s.unpublished[1..], missed := s.missed + DeltaFor(s.unpublished[0]).serials)
    case Subscribe => s.(stream := Open([], false))
    case Snapshot => s.(stream := s.stream.(snapshotSent := true), deny := E.RevokedSet(s.db), missed := {})
    case Receive =>
      s.(stream := s.stream.(queue := s.stream.queue[1..]), deny := Denied(s.deny, s.stream.queue[0]))
    case Close => s.(stream := Closed)
  }

  ghost predicate ValidRun(events: seq<Event>)
    decreases |events|, 0
  {
    events == [] ||
    (ValidRun(events[..|events| - 1]) && Enabled(After(events[..|events| - 1]), events[|events| - 1]))
  }

  ghost function After(events: seq<Event>): State
    requires ValidRun(events)
    decreases |events|, 1
  {
    if events == [] then State(E.Run([]), [], Closed, {}, {})
    else Step(After(events[..|events| - 1]), events[|events| - 1])
  }

  /** The revocations some changes carry. */
  function Carried(cs: seq<Change>): set<Serial> {
    if cs == [] then {} else DeltaFor(cs[0]).serials + Carried(cs[1..])
  }

  lemma {:induction false} CarriedConcat(a: seq<Change>, b: seq<Change>)
    ensures Carried(a + b) == Carried(a) + Carried(b)
  {
    if a == [] {
      assert a + b == b;
    } else {
      assert (a + b)[1..] == a[1..] + b;
      CarriedConcat(a[1..], b);
    }
  }

  lemma CarriedOne(c: Change)
    ensures Carried([c]) == DeltaFor(c).serials
  {
    assert [c][1..] == [];
  }

  /** Nothing is denied that is not revoked; and on a live stream everything
      revoked is denied, on its way, or was skipped. */
  predicate Faithful(s: State) {
    && s.deny <= E.RevokedSet(s.db) && Carried(s.unpublished) <= E.RevokedSet(s.db) && s.missed <= E.RevokedSet(s.db)
    && (s.stream.Open? ==>
          && Carried(s.stream.queue) <= E.RevokedSet(s.db)
          && (s.stream.snapshotSent ==>
                E.RevokedSet(s.db) <= s.deny + Carried(s.stream.queue) + Carried(s.unpublished) + s.missed))
  }

  /** A broadcast carries exactly what its transaction newly revokes; revoking a
      serial a second time names it again. */
  lemma AnnouncedCarries(db: E.Db, op: E.Op)
    ensures Carried(Announced(db, op)) ==
            NewlyRevoked(db, op) + if op.Revoke? && op.serial in db.certs then {op.serial} else {}
    ensures Carried(Announced(db, op)) <= E.RevokedSet(E.Step(db, op))
    ensures E.RevokedSet(db) <= E.RevokedSet(E.Step(db, op))
  {
    forall c | c in E.RevokedSet(db) ensures c in E.RevokedSet(E.Step(db, op)) {
      E.RevocationStep(db, op, c);
    }
    if Announced(db, op) != [] {
      CarriedOne(Announced(db, op)[0]);
    }
    match op
    case EnrollGw(owners, req) =>
      if E.Authorize(db, owners, req).Ok? {
        EnrollRevokes(db, owners, req);
      }
    case Drain(g, now) => assert g < |db.gateways| ==> NewlyRevoked(db, op) == StillHeld(db, {g});
    case _ =>
  }

  lemma EnrollRevokes(db: E.Db, owners: E.Owners, req: E.GatewayRequest)
    requires E.Authorize(db, owners, req).Ok?
    ensures NewlyRevoked(db, E.EnrollGw(owners, req)) == StillHeld(db, Displaced(db, owners, req))
  {
    var gone := Displaced(db, owners, req);
    var certs' := E.Enrolled(db, owners, req).certs;
    assert certs' == E.Revoked(db.certs, gone, req.now)[req.serial := E.Cert(E.OfGateway(|db.gateways|), None)];
    assert req.serial !in db.certs;
  }

  lemma FaithfulStep(s: State, ev: Event)
    requires Faithful(s) && Enabled(s, ev)
    ensures Faithful(Step(s, ev))
  {
    match ev
    case Commit(op) =>
      AnnouncedCarries(s.db, op);
      CarriedConcat(s.unpublished, Announced(s.db, op));
    case Other(c) =>
      CarriedConcat(s.unpublished, [c]);
      CarriedOne(c);
    case Publish =>
      if s.stream.Open? {
        CarriedConcat(s.stream.queue, [s.unpublished[0]]);
        CarriedOne(s.unpublished[0]);
      }
    case Receive => RelaySeesOnlyRevocations(s.stream.queue[0]);
    case _ =>
  }

  lemma {:induction false} RunIsFaithful(events: seq<Event>)
    requires ValidRun(events)
    ensures Faithful(After(events))
  {
    if events == [] {
    } else {
      RunIsFaithful(events[..|events| - 1]);
      FaithfulStep(After(events[..|events| - 1]), events[|events| - 1]);
    }
  }

  /** Over any interleaving of commits, broadcasts, reconnects and lag: once a
      relay on a live stream has drained it, its denylist is the database's
      revoked set, less only what a skipped broadcast withheld; and at no time
      does it deny a serial that is not revoked. */
  lemma DenylistIsRevokedSet(events: seq<Event>)
    requires ValidRun(events)
    ensures var s := After(events);
            && s.deny <= E.RevokedSet(s.db)
            && (s.stream.Open? && s.stream.snapshotSent && s.stream.queue == [] && s.unpublished == [] ==>
                  && E.RevokedSet(s.db) == s.deny + s.missed
                  && (s.missed == {} ==> s.deny == E.RevokedSet(s.db)))
  {
    RunIsFaithful(events);
  }
}
