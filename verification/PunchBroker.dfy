/** The controller's hole-punch broker: reported path states per gateway, the
    settled-pair rule, the periodic retry budget and the connection registry. */
module PunchBroker {
  import opened Outcomes

  type Gateway = int
  type Channel = nat
  type Pair = (Gateway, Gateway)

  const MAX_PERIODIC_ATTEMPTS: nat := 5
  const MAX_PEER_PATHS: nat := 4096

  // ---- reported states --------------------------------------------------

  type Entry = map<Gateway, string>
  type States = map<Gateway, Entry>

  /** A peer id as sent, an unsigned 64-bit number. */
  type WireId = n: nat | n < 0x1_0000_0000_0000_0000

  datatype PeerPath = PeerPath(peer: WireId, state: string)

  /** The wire id read back as a signed 64-bit number. */
  function AsSigned(n: WireId): Gateway {
    if n < 0x8000_0000_0000_0000 then n else n - 0x1_0000_0000_0000_0000
  }

  predicate SettledState(s: string) {
    s == "direct" || s == "relayed"
  }

  predicate SettledDir(states: States, reporter: Gateway, peer: Gateway) {
    reporter in states && peer in states[reporter] && SettledState(states[reporter][peer])
  }

  predicate SettledIn(states: States, a: Gateway, b: Gateway) {
    SettledDir(states, a, b) && SettledDir(states, b, a)
  }

  function EntryOf(states: States, g: Gateway): Entry {
    if g in states then states[g] else map[]
  }

  /** One path stored: past the cap, only for a peer already tracked. */
  function PutOne(entry: Entry, pp: PeerPath): Entry {
    var peer := AsSigned(pp.peer);
    if |entry| >= MAX_PEER_PATHS && peer !in entry then entry else entry[peer := pp.state]
  }

  function Put(entry: Entry, paths: seq<PeerPath>): Entry
    decreases |paths|
  {
    if paths == [] then entry else Put(PutOne(entry, paths[0]), paths[1..])
  }

  function Stored(states: States, reporter: Gateway, paths: seq<PeerPath>, snapshot: bool): States {
    if paths == [] then (if snapshot then states - {reporter} else states)
    else states[reporter := Put(if snapshot then map[] else EntryOf(states, reporter), paths)]
  }

  function Carried(paths: seq<PeerPath>): set<Gateway> {
    set i | 0 <= i < |paths| :: AsSigned(paths[i].peer)
  }

  /** The peers a report can touch: those it carries and, for a snapshot, those
      it may be replacing. */
  function Affected(states: States, reporter: Gateway, paths: seq<PeerPath>, snapshot: bool): set<Gateway> {
    Carried(paths) + if snapshot then EntryOf(states, reporter).Keys else {}
  }

  function Edges(states: States, reporter: Gateway, paths: seq<PeerPath>, snapshot: bool): set<Gateway> {
    set p | p in Affected(states, reporter, paths, snapshot)
            && SettledIn(states, reporter, p) && !SettledIn(Stored(states, reporter, paths, snapshot), reporter, p)
  }

  // ---- what storing a report changes ------------------------------------

  lemma CarriedStep(paths: seq<PeerPath>)
    requires paths != []
    ensures Carried(paths) == {AsSigned(paths[0].peer)} + Carried(paths[1..])
  {
    var first, rest := AsSigned(paths[0].peer), paths[1..];
    forall q | q in Carried(rest) ensures q in Carried(paths) {
      var i :| 0 <= i < |rest| && AsSigned(rest[i].peer) == q;
      assert paths[i + 1] == rest[i];
    }
    forall q | q in Carried(paths) && q != first ensures q in Carried(rest) {
      var i :| 0 <= i < |paths| && AsSigned(paths[i].peer) == q;
      assert rest[i - 1] == paths[i];
    }
  }

  lemma {:induction false} PutOthers(entry: Entry, paths: seq<PeerPath>, p: Gateway)
    requires p !in Carried(paths)
    ensures p in Put(entry, paths) <==> p in entry
    ensures p in entry ==> Put(entry, paths)[p] == entry[p]
    decreases |paths|
  {
    if paths == [] {
    } else {
      CarriedStep(paths);
      PutOthers(PutOne(entry, paths[0]), paths[1..], p);
    }
  }

  /** No pair but the reporter's with an affected peer changes status. */
  lemma OnlyAffectedChange(states: States, reporter: Gateway, paths: seq<PeerPath>, snapshot: bool,
                           a: Gateway, b: Gateway)
    requires !(a == reporter && b in Affected(states, reporter, paths, snapshot))
    requires !(b == reporter && a in Affected(states, reporter, paths, snapshot))
    ensures SettledIn(Stored(states, reporter, paths, snapshot), a, b) <==> SettledIn(states, a, b)
  {
    DirUnchanged(states, reporter, paths, snapshot, a, b);
    DirUnchanged(states, reporter, paths, snapshot, b, a);
  }

  lemma DirUnchanged(states: States, reporter: Gateway, paths: seq<PeerPath>, snapshot: bool, a: Gateway, b: Gateway)
    requires !(a == reporter && b in Affected(states, reporter, paths, snapshot))
    ensures SettledDir(Stored(states, reporter, paths, snapshot), a, b) <==> SettledDir(states, a, b)
  {
    if a == reporter && paths != [] {
      PutOthers(if snapshot then map[] else EntryOf(states, reporter), paths, b);
    }
  }

  /** The edge list is complete: over all peers whatsoever, it holds exactly
      those whose pair with the reporter went from settled to not settled. */
  lemma EdgesExact(states: States, reporter: Gateway, paths: seq<PeerPath>, snapshot: bool, p: Gateway)
    ensures p in Edges(states, reporter, paths, snapshot) <==>
            SettledIn(states, reporter, p) && !SettledIn(Stored(states, reporter, paths, snapshot), reporter, p)
  {
    if p !in Affected(states, reporter, paths, snapshot)
       && !(p == reporter && reporter in Affected(states, reporter, paths, snapshot)) {
      DirUnchanged(states, reporter, paths, snapshot, reporter, p);
      if p != reporter {
        DirUnchanged(states, reporter, paths, snapshot, p, reporter);
      }
    }
  }

  /** The state a report last gives for `p`, if any. */
  function LastFor(paths: seq<PeerPath>, p: Gateway): Option<string> {
    if paths == [] then None
    else if LastFor(paths[1..], p).Some? then LastFor(paths[1..], p)
    else if AsSigned(paths[0].peer) == p then Some(paths[0].state)
    else None
  }

  /** A peer already tracked always gets its last reported state, however many
      other ids the report carries. */
  lemma {:induction false} TrackedAlwaysUpdated(entry: Entry, paths: seq<PeerPath>, p: Gateway)
    requires p in entry
    ensures p in Put(entry, paths)
    ensures Put(entry, paths)[p] == match LastFor(paths, p) case Some(s) => s case None => entry[p]
    decreases |paths|
  {
    if paths == [] {
    } else {
      TrackedAlwaysUpdated(PutOne(entry, paths[0]), paths[1..], p);
    }
  }

  lemma PutOneSize(entry: Entry, pp: PeerPath)
    requires |entry| <= MAX_PEER_PATHS
    ensures |PutOne(entry, pp)| <= MAX_PEER_PATHS && |PutOne(entry, pp)| <= |entry| + 1
    ensures |entry| < MAX_PEER_PATHS ==> PutOne(entry, pp).Keys == entry.Keys + {AsSigned(pp.peer)}
  {
    var peer := AsSigned(pp.peer);
    var next := entry[peer := pp.state];
    assert next.Keys == entry.Keys + {peer};
    assert peer in entry ==> next.Keys == entry.Keys;
    assert peer !in entry ==> |next.Keys| == |entry.Keys| + 1;
  }

  /** The cap holds, and until it is reached every peer is stored. */
  lemma {:induction false} PutCapped(entry: Entry, paths: seq<PeerPath>)
    requires |entry| <= MAX_PEER_PATHS
    ensures |Put(entry, paths)| <= MAX_PEER_PATHS
    ensures |entry| + |paths| <= MAX_PEER_PATHS ==> Put(entry, paths).Keys == entry.Keys + Carried(paths)
    decreases |paths|
  {
    if paths == [] {
    } else {
      PutOneSize(entry, paths[0]);
      PutCapped(PutOne(entry, paths[0]), paths[1..]);
      CarriedStep(paths);
    }
  }

  // ---- ascending order --------------------------------------------------

  lemma {:induction false} LeastExists(s: set<Gateway>)
    ensures s == {} || exists m :: m in s && Least(s, m)
    decreases |s|
  {
    if forall e :: e !in s {
      assert s == {};
    } else {
      var e :| e in s;
      var rest := s - {e};
      LeastExists(rest);
      if m :| m in rest && Least(rest, m) {
        var least := if m < e then m else e;
        forall x | x in s ensures least <= x {
          assert x == e || x in rest;
        }
        assert least in s && Least(s, least);
      } else {
        assert s == {e};
        assert Least(s, e);
      }
    }
  }

  predicate Least(s: set<Gateway>, m: Gateway) {
    forall x :: x in s ==> m <= x
  }

  ghost function Ascending(s: set<Gateway>): (r: seq<Gateway>)
    ensures forall x :: x in r <==> x in s
    decreases |s|
  {
    if s == {} then []
    else
      LeastExists(s);
      var m :| m in s && Least(s, m);
      [m] + Ascending(s - {m})
  }

  // ---- brokering --------------------------------------------------------

  /** What left the broker, in order, along with the resets of pair budgets. */
  datatype Note =
    | Reset(pair: Pair)
    | Punch(recipient: Gateway, about: Gateway)
    | PeriodicOk(pair: Pair)

  datatype State = State(states: States, attempts: map<Pair, nat>, registry: map<Gateway, Channel>, log: seq<Note>)

  /** What the database and the channels answer during one event: who has a
      candidate, whose channel is full, who is whose peer. */
  datatype Env = Env(candidates: set<Gateway>, full: set<Gateway>, peers: map<Gateway, seq<Gateway>>)

  function PairKey(a: Gateway, b: Gateway): Pair {
    if a <= b then (a, b) else (b, a)
  }

  function Attempts(s: State, pair: Pair): nat {
    if pair in s.attempts then s.attempts[pair] else 0
  }

  function Sends(a: Gateway, b: Gateway, env: Env): seq<Note> {
    (if a in env.full then [] else [Punch(a, b)]) + (if b in env.full then [] else [Punch(b, a)])
  }

  predicate CanEmit(s: State, a: Gateway, b: Gateway, env: Env) {
    && a in s.registry && b in s.registry
    && !SettledIn(s.states, a, b)
    && a in env.candidates && b in env.candidates
  }

  function EmitPair(s: State, a: Gateway, b: Gateway, env: Env): State {
    if CanEmit(s, a, b, env) then s.(log := s.log + Sends(a, b, env)) else s
  }

  predicate Emitted(s: State, a: Gateway, b: Gateway, env: Env) {
    CanEmit(s, a, b, env) && a !in env.full && b !in env.full
  }

  function EmitPeriodic(s: State, a: Gateway, b: Gateway, env: Env): State {
    var key := PairKey(a, b);
    if Attempts(s, key) >= MAX_PERIODIC_ATTEMPTS then s
    else
      var s1 := EmitPair(s, a, b, env);
      if Emitted(s, a, b, env) then
        s1.(attempts := s1.attempts[key := Attempts(s, key) + 1], log := s1.log + [PeriodicOk(key)])
      else s1
  }

  function ResetPair(s: State, a: Gateway, b: Gateway): State {
    var key := PairKey(a, b);
    s.(attempts := s.attempts - {key}, log := s.log + [Reset(key)])
  }

  /** Reset and punch each peer in turn. */
  function PunchAll(s: State, g: Gateway, peers: seq<Gateway>, env: Env): State
    decreases |peers|
  {
    if peers == [] then s
    else PunchAll(EmitPair(ResetPair(s, g, peers[0]), g, peers[0], env), g, peers[1..], env)
  }

  function PeersOf(env: Env, g: Gateway): seq<Gateway> {
    if g in env.peers then env.peers[g] else []
  }

  function SweepPeers(s: State, g: Gateway, peers: seq<Gateway>, connected: seq<Gateway>, env: Env): State
    decreases |peers|
  {
    if peers == [] then s
    else
      var s1 := if peers[0] <= g || peers[0] !in connected then s else EmitPeriodic(s, g, peers[0], env);
      SweepPeers(s1, g, peers[1..], connected, env)
  }

  function SweepAll(s: State, todo: seq<Gateway>, connected: seq<Gateway>, env: Env): State
    decreases |todo|
  {
    if todo == [] then s
    else SweepAll(SweepPeers(s, todo[0], PeersOf(env, todo[0]), connected, env), todo[1..], connected, env)
  }

  datatype Event =
    | Report(reporter: Gateway, paths: seq<PeerPath>, snapshot: bool, env: Env)
    | Register(g: Gateway, ch: Channel)
    | Connected(g: Gateway, env: Env)
    | DropGuard(g: Gateway, ch: Channel)
    | Candidate(g: Gateway, env: Env)
    | Sweep(connected: seq<Gateway>, env: Env)

  /** The state each event emits against. */
  function Prepared(s: State, ev: Event): State {
    match ev
    case Report(r, paths, snapshot, _) => s.(states := Stored(s.states, r, paths, snapshot))
    case Connected(g, _) => s.(states := s.states - {g})
    case _ => s
  }

  ghost function Step(s: State, ev: Event): State {
    match ev
    case Report(r, paths, snapshot, env) =>
      PunchAll(Prepared(s, ev), r, Ascending(Edges(s.states, r, paths, snapshot)), env)
    case Register(g, ch) => s.(registry := s.registry[g := ch])
    case Connected(g, env) => PunchAll(Prepared(s, ev), g, PeersOf(env, g), env)
    case DropGuard(g, ch) => if g in s.registry && s.registry[g] == ch then s.(registry := s.registry - {g}) else s
    case Candidate(g, env) => PunchAll(s, g, PeersOf(env, g), env)
    case Sweep(connected, env) => SweepAll(s, connected, connected, env)
  }

  ghost function Run(events: seq<Event>): State {
    if events == [] then State(map[], map[], map[], []) else Step(Run(events[..|events| - 1]), events[|events| - 1])
  }

  class Broker {
    var states: States
    var attempts: map<Pair, nat>
    var registry: map<Gateway, Channel>
    var log: seq<Note>

    function View(): State
      reads this
    {
      State(states, attempts, registry, log)
    }

    constructor ()
      ensures View() == Run([])
    {
      states, attempts, registry, log := map[], map[], map[], [];
    }

    method Emit(a: Gateway, b: Gateway, env: Env) returns (ok: bool)
      modifies `log
      ensures View() == EmitPair(old(View()), a, b, env) && ok == Emitted(old(View()), a, b, env)
    {
      if a !in registry || b !in registry {
        return false;
      }
      if SettledIn(states, a, b) {
        return false;
      }
      if a !in env.candidates || b !in env.candidates {
        return false;
      }
      var aSent, bSent := a !in env.full, b !in env.full;
      log := log + ((if aSent then [Punch(a, b)] else []) + (if bSent then [Punch(b, a)] else []));
      return aSent && bSent;
    }

    method EmitOnBudget(a: Gateway, b: Gateway, env: Env)
      modifies `log, `attempts
      ensures View() == EmitPeriodic(old(View()), a, b, env)
    {
      var key := PairKey(a, b);
      var spent := if key in attempts then attempts[key] else 0;
      if spent >= MAX_PERIODIC_ATTEMPTS {
        return;
      }
      var ok := Emit(a, b, env);
      if ok {
        attempts := attempts[key := spent + 1];
        log := log + [PeriodicOk(key)];
      }
    }

    method PunchPeers(g: Gateway, peers: seq<Gateway>, env: Env)
      modifies `log, `attempts
      ensures View() == PunchAll(old(View()), g, peers, env)
    {
      for i := 0 to |peers|
        invariant PunchAll(View(), g, peers[i..], env) == PunchAll(old(View()), g, peers, env)
        invariant states == old(states) && registry == old(registry)
      {
        assert peers[i..][1..] == peers[i + 1..];
        PunchOne(g, peers[i], env);
      }
    }

    method OnReport(reporter: Gateway, paths: seq<PeerPath>, snapshot: bool, env: Env)
      modifies this
      ensures View() == Step(old(View()), Report(reporter, paths, snapshot, env))
    {
      if !snapshot && paths == [] {
        NoEdges(states, reporter);
        return;
      }
      ghost var start := View();
      var affected := Affected(states, reporter, paths, snapshot);
      var before := set p | p in affected && SettledIn(states, reporter, p);
      StorePaths(reporter, paths, snapshot);
      var edges := set p | p in before && !SettledIn(states, reporter, p);
      assert edges == Edges(start.states, reporter, paths, snapshot);
      PunchEdges(reporter, edges, env);
    }

    /** Serve the edges in ascending order. */
    method PunchEdges(reporter: Gateway, edges: set<Gateway>, env: Env)
      modifies `log, `attempts
      ensures View() == PunchAll(old(View()), reporter, Ascending(edges), env)
    {
      var left := edges;
      while left != {}
        invariant PunchAll(View(), reporter, Ascending(left), env) ==
                  PunchAll(old(View()), reporter, Ascending(edges), env)
        invariant states == old(states) && registry == old(registry)
        decreases |left|
      {
        LeastExists(left);
        var peer :| peer in left && Least(left, peer);
        AscendingStep(left, peer);
        PunchOne(reporter, peer, env);
        left := left - {peer};
      }
    }

    method PunchOne(g: Gateway, peer: Gateway, env: Env)
      modifies `log, `attempts
      ensures View() == EmitPair(ResetPair(old(View()), g, peer), g, peer, env)
    {
      var key := PairKey(g, peer);
      attempts := attempts - {key};
      log := log + [Reset(key)];
      var _ := Emit(g, peer, env);
    }

    method StorePaths(reporter: Gateway, paths: seq<PeerPath>, snapshot: bool)
      requires snapshot || paths != []
      modifies `states
      ensures states == Stored(old(states), reporter, paths, snapshot)
    {
      if snapshot && paths == [] {
        states := states - {reporter};
        return;
      }
      var entry := if snapshot then map[] else EntryOf(states, reporter);
      ghost var first := entry;
      for i := 0 to |paths|
        invariant Put(entry, paths[i..]) == Put(first, paths)
      {
        assert paths[i..][1..] == paths[i + 1..];
        var peer := AsSigned(paths[i].peer);
        if !(|entry| >= MAX_PEER_PATHS && peer !in entry) {
          entry := entry[peer := paths[i].state];
        }
      }
      states := states[reporter := entry];
    }

    method PeriodicSweep(connected: seq<Gateway>, env: Env)
      modifies `log, `attempts
      ensures View() == Step(old(View()), Sweep(connected, env))
    {
      for i := 0 to |connected|
        invariant SweepAll(View(), connected[i..], connected, env) == SweepAll(old(View()), connected, connected, env)
        invariant states == old(states) && registry == old(registry)
      {
        assert connected[i..][1..] == connected[i + 1..];
        SweepOne(connected[i], PeersOf(env, connected[i]), connected, env);
      }
    }

    method SweepOne(g: Gateway, peers: seq<Gateway>, connected: seq<Gateway>, env: Env)
      modifies `log, `attempts
      ensures View() == SweepPeers(old(View()), g, peers, connected, env)
    {
      for k := 0 to |peers|
        invariant SweepPeers(View(), g, peers[k..], connected, env) == SweepPeers(old(View()), g, peers, connected, env)
        invariant states == old(states) && registry == old(registry)
      {
        assert peers[k..][1..] == peers[k + 1..];
        if peers[k] <= g || peers[k] !in connected {
          continue;
        }
        EmitOnBudget(g, peers[k], env);
      }
    }

    method OnGatewayConnected(g: Gateway, env: Env)
      modifies this
      ensures View() == Step(old(View()), Connected(g, env))
    {
      states := states - {g};
      PunchPeers(g, PeersOf(env, g), env);
    }

    method RegisterChannel(g: Gateway, ch: Channel)
      modifies `registry
      ensures View() == Step(old(View()), Register(g, ch))
      ensures g in registry && registry[g] == ch
      ensures forall h :: h != g ==>
                (h in registry <==> h in old(registry)) && (h in registry ==> registry[h] == old(registry)[h])
    {
      registry := registry[g := ch];
    }

    method GuardDropped(g: Gateway, ch: Channel)
      modifies `registry
      ensures View() == Step(old(View()), DropGuard(g, ch))
      ensures g in registry <==> g in old(registry) && old(registry)[g] != ch
      ensures forall h :: h in registry ==> h in old(registry) && registry[h] == old(registry)[h]
      ensures forall h :: h in old(registry) && h != g ==> h in registry
    {
      if g in registry && registry[g] == ch {
        registry := registry - {g};
      }
    }
  }

  lemma NoEdges(states: States, reporter: Gateway)
    ensures Edges(states, reporter, [], false) == {}
  {
  }

  lemma AscendingStep(s: set<Gateway>, m: Gateway)
    requires m in s && Least(s, m)
    ensures Ascending(s) == [m] + Ascending(s - {m})
    ensures Ascending(s)[0] == m && Ascending(s)[1..] == Ascending(s - {m})
  {
  }

  // ---- settled pairs are left alone -------------------------------------

  /** The pair a note sends to or charges; a reset does neither. */
  function PairOf(n: Note): Option<Pair> {
    match n
    case Reset(_) => None
    case Punch(recipient, about) => Some((recipient, about))
    case PeriodicOk(pair) => Some(pair)
  }

  /** Every directive sent and every attempt charged from position `from` on
      concerns a pair not settled. */
  predicate OnlyUnsettled(log: seq<Note>, from: nat, states: States) {
    forall i :: from <= i < |log| && PairOf(log[i]).Some? ==>
      !SettledIn(states, PairOf(log[i]).value.0, PairOf(log[i]).value.1)
  }

  lemma EmitOnlyUnsettled(s: State, a: Gateway, b: Gateway, env: Env, from: nat)
    requires OnlyUnsettled(s.log, from, s.states)
    ensures OnlyUnsettled(EmitPair(s, a, b, env).log, from, s.states)
    ensures EmitPair(s, a, b, env).states == s.states && s.log <= EmitPair(s, a, b, env).log
  {
    assert forall n :: n in Sends(a, b, env) ==> n == Punch(a, b) || n == Punch(b, a);
  }

  lemma {:induction false} PunchAllOnlyUnsettled(s: State, g: Gateway, peers: seq<Gateway>, env: Env, from: nat)
    requires OnlyUnsettled(s.log, from, s.states)
    ensures OnlyUnsettled(PunchAll(s, g, peers, env).log, from, s.states)
    ensures PunchAll(s, g, peers, env).states == s.states && s.log <= PunchAll(s, g, peers, env).log
    decreases |peers|
  {
    if peers == [] {
    } else {
      var r := ResetPair(s, g, peers[0]);
      EmitOnlyUnsettled(r, g, peers[0], env, from);
      PunchAllOnlyUnsettled(EmitPair(r, g, peers[0], env), g, peers[1..], env, from);
    }
  }

  lemma PeriodicOnlyUnsettled(s: State, a: Gateway, b: Gateway, env: Env, from: nat)
    requires OnlyUnsettled(s.log, from, s.states)
    ensures OnlyUnsettled(EmitPeriodic(s, a, b, env).log, from, s.states)
    ensures EmitPeriodic(s, a, b, env).states == s.states && s.log <= EmitPeriodic(s, a, b, env).log
  {
    EmitOnlyUnsettled(s, a, b, env, from);
  }

  lemma {:induction false} SweepPeersOnlyUnsettled(s: State, g: Gateway, peers: seq<Gateway>, connected: seq<Gateway>,
                                                   env: Env, from: nat)
    requires OnlyUnsettled(s.log, from, s.states)
    ensures var s' := SweepPeers(s, g, peers, connected, env);
            OnlyUnsettled(s'.log, from, s.states) && s'.states == s.states && s.log <= s'.log
    decreases |peers|
  {
    if peers == [] {
    } else {
      PeriodicOnlyUnsettled(s, g, peers[0], env, from);
      var s1 := if peers[0] <= g || peers[0] !in connected then s else EmitPeriodic(s, g, peers[0], env);
      SweepPeersOnlyUnsettled(s1, g, peers[1..], connected, env, from);
    }
  }

  lemma {:induction false} SweepAllOnlyUnsettled(s: State, todo: seq<Gateway>, connected: seq<Gateway>,
                                                 env: Env, from: nat)
    requires OnlyUnsettled(s.log, from, s.states)
    ensures var s' := SweepAll(s, todo, connected, env);
            OnlyUnsettled(s'.log, from, s.states) && s'.states == s.states && s.log <= s'.log
    decreases |todo|
  {
    if todo == [] {
    } else {
      SweepPeersOnlyUnsettled(s, todo[0], PeersOf(env, todo[0]), connected, env, from);
      var s' := SweepPeers(s, todo[0], PeersOf(env, todo[0]), connected, env);
      SweepAllOnlyUnsettled(s', todo[1..], connected, env, from);
    }
  }

  /** Whatever the event, every directive it sends and every attempt it charges
      is for a pair that is not settled at that moment, the report or reconnect
      being handled included. */
  lemma SettledGetNothing(s: State, ev: Event)
    ensures var s' := Step(s, ev);
            && s.log <= s'.log && s'.states == Prepared(s, ev).states
            && OnlyUnsettled(s'.log, |s.log|, s'.states)
  {
    var p := Prepared(s, ev);
    match ev
    case Report(r, paths, snapshot, env) =>
      PunchAllOnlyUnsettled(p, r, Ascending(Edges(s.states, r, paths, snapshot)), env, |s.log|);
    case Connected(g, env) => PunchAllOnlyUnsettled(p, g, PeersOf(env, g), env, |s.log|);
    case Candidate(g, env) => PunchAllOnlyUnsettled(p, g, PeersOf(env, g), env, |s.log|);
    case Sweep(connected, env) => SweepAllOnlyUnsettled(s, connected, connected, env, |s.log|);
    case _ =>
  }

  // ---- and an unsettled edge is not -------------------------------------

  lemma {:induction false} PunchAllReaches(s: State, g: Gateway, peers: seq<Gateway>, env: Env, p: Gateway)
    requires p in peers && Emitted(s, g, p, env)
    ensures var s' := PunchAll(s, g, peers, env);
            && |s.log| <= |s'.log|
            && Punch(g, p) in s'.log[|s.log|..] && Punch(p, g) in s'.log[|s.log|..] && PairKey(g, p) !in s'.attempts
    decreases |peers|
  {
    var s1 := EmitPair(ResetPair(s, g, peers[0]), g, peers[0], env);
    var s' := PunchAll(s, g, peers, env);
    PunchAllGrows(s1, g, peers[1..], env);
    assert s1.log[..|s.log|] == s.log;
    if p == peers[0] {
      var n := |s.log| + 1;
      assert s1.log[n] == Punch(g, p) && s1.log[n + 1] == Punch(p, g);
      assert s'.log[|s.log|..][1] == Punch(g, p) && s'.log[|s.log|..][2] == Punch(p, g);
    } else {
      PunchAllReaches(s1, g, peers[1..], env, p);
      assert s'.log[|s.log|..] == s'.log[|s.log|..|s1.log|] + s'.log[|s1.log|..];
    }
  }

  lemma {:induction false} PunchAllGrows(s: State, g: Gateway, peers: seq<Gateway>, env: Env)
    ensures var s' := PunchAll(s, g, peers, env);
            s.log <= s'.log && s'.attempts.Keys <= s.attempts.Keys
    decreases |peers|
  {
    if peers == [] {
    } else {
      PunchAllGrows(EmitPair(ResetPair(s, g, peers[0]), g, peers[0], env), g, peers[1..], env);
    }
  }

  /** A pair that falls off settled is punched at once, both ways, and gets its
      whole budget back, provided both ends can be reached. */
  lemma EdgeIsPunched(s: State, r: Gateway, paths: seq<PeerPath>, snapshot: bool, env: Env, p: Gateway)
    requires SettledIn(s.states, r, p) && !SettledIn(Stored(s.states, r, paths, snapshot), r, p)
    requires r in s.registry && p in s.registry && r in env.candidates && p in env.candidates
    requires r !in env.full && p !in env.full
    ensures var s' := Step(s, Report(r, paths, snapshot, env));
            |s.log| <= |s'.log| && Punch(r, p) in s'.log[|s.log|..] && Punch(p, r) in s'.log[|s.log|..]
            && Attempts(s', PairKey(r, p)) == 0
  {
    EdgesExact(s.states, r, paths, snapshot, p);
    var s1 := Prepared(s, Report(r, paths, snapshot, env));
    var peers := Ascending(Edges(s.states, r, paths, snapshot));
    PunchAllGrows(s1, r, peers, env);
    PunchAllReaches(s1, r, peers, env, p);
  }

  // ---- the periodic budget ----------------------------------------------

  /** Periodic successes for a pair since its last reset, read off the log. */
  function SinceReset(log: seq<Note>, pair: Pair): nat {
    if log == [] then 0
    else
      var last, before := log[|log| - 1], log[..|log| - 1];
      if last == Reset(pair) then 0
      else SinceReset(before, pair) + if last == PeriodicOk(pair) then 1 else 0
  }

  ghost predicate Budgeted(s: State) {
    forall pair: Pair ::
      Attempts(s, pair) == SinceReset(s.log, pair) && SinceReset(s.log, pair) <= MAX_PERIODIC_ATTEMPTS
  }

  lemma OneMore(log: seq<Note>, n: Note, pair: Pair)
    ensures SinceReset(log + [n], pair) ==
            if n == Reset(pair) then 0 else SinceReset(log, pair) + if n == PeriodicOk(pair) then 1 else 0
  {
    assert (log + [n])[..|log + [n]| - 1] == log;
  }

  lemma PunchesDoNotCount(log: seq<Note>, a: Gateway, b: Gateway, env: Env, pair: Pair)
    ensures SinceReset(log + Sends(a, b, env), pair) == SinceReset(log, pair)
  {
    var one := if a in env.full then log else log + [Punch(a, b)];
    OneMore(log, Punch(a, b), pair);
    OneMore(one, Punch(b, a), pair);
    assert log + Sends(a, b, env) == if b in env.full then one else one + [Punch(b, a)];
  }

  lemma EmitBudgeted(s: State, a: Gateway, b: Gateway, env: Env)
    requires Budgeted(s)
    ensures Budgeted(EmitPair(s, a, b, env))
  {
    forall pair: Pair
      ensures SinceReset(EmitPair(s, a, b, env).log, pair) == SinceReset(s.log, pair)
    {
      PunchesDoNotCount(s.log, a, b, env, pair);
    }
    assert forall pair: Pair :: Attempts(EmitPair(s, a, b, env), pair) == Attempts(s, pair);
  }

  lemma PeriodicBudgeted(s: State, a: Gateway, b: Gateway, env: Env)
    requires Budgeted(s)
    ensures Budgeted(EmitPeriodic(s, a, b, env))
  {
    EmitBudgeted(s, a, b, env);
    var s1, key := EmitPair(s, a, b, env), PairKey(a, b);
    var s' := EmitPeriodic(s, a, b, env);
    if s' != s && s' != s1 {
      forall pair: Pair
        ensures Attempts(s', pair) == SinceReset(s'.log, pair) && SinceReset(s'.log, pair) <= MAX_PERIODIC_ATTEMPTS
      {
        OneMore(s1.log, PeriodicOk(key), pair);
        assert Attempts(s1, pair) == SinceReset(s1.log, pair);
      }
    }
  }

  lemma ResetBudgeted(s: State, a: Gateway, b: Gateway)
    requires Budgeted(s)
    ensures Budgeted(ResetPair(s, a, b))
  {
    forall pair: Pair
      ensures Attempts(ResetPair(s, a, b), pair) == SinceReset(ResetPair(s, a, b).log, pair) <= MAX_PERIODIC_ATTEMPTS
    {
      OneMore(s.log, Reset(PairKey(a, b)), pair);
      assert Attempts(s, pair) == SinceReset(s.log, pair);
    }
  }

  lemma {:induction false} PunchAllBudgeted(s: State, g: Gateway, peers: seq<Gateway>, env: Env)
    requires Budgeted(s)
    ensures Budgeted(PunchAll(s, g, peers, env))
    decreases |peers|
  {
    if peers == [] {
    } else {
      ResetBudgeted(s, g, peers[0]);
      EmitBudgeted(ResetPair(s, g, peers[0]), g, peers[0], env);
      PunchAllBudgeted(EmitPair(ResetPair(s, g, peers[0]), g, peers[0], env), g, peers[1..], env);
    }
  }

  lemma {:induction false} SweepPeersBudgeted(s: State, g: Gateway, peers: seq<Gateway>,
                                              connected: seq<Gateway>, env: Env)
    requires Budgeted(s)
    ensures Budgeted(SweepPeers(s, g, peers, connected, env))
    decreases |peers|
  {
    if peers == [] {
    } else {
      PeriodicBudgeted(s, g, peers[0], env);
      var s1 := if peers[0] <= g || peers[0] !in connected then s else EmitPeriodic(s, g, peers[0], env);
      SweepPeersBudgeted(s1, g, peers[1..], connected, env);
    }
  }

  lemma {:induction false} SweepAllBudgeted(s: State, todo: seq<Gateway>, connected: seq<Gateway>, env: Env)
    requires Budgeted(s)
    ensures Budgeted(SweepAll(s, todo, connected, env))
    decreases |todo|
  {
    if todo == [] {
    } else {
      SweepPeersBudgeted(s, todo[0], PeersOf(env, todo[0]), connected, env);
      SweepAllBudgeted(SweepPeers(s, todo[0], PeersOf(env, todo[0]), connected, env), todo[1..], connected, env);
    }
  }

  lemma SameBudget(s: State, s': State)
    requires Budgeted(s) && s'.attempts == s.attempts && s'.log == s.log
    ensures Budgeted(s')
  {
    assert forall pair: Pair :: Attempts(s', pair) == Attempts(s, pair);
  }

  /** Over any run, each pair's stored count is its periodic successes since its
      last reset, and there are never more than five of those. */
  lemma {:induction false} BudgetHolds(events: seq<Event>)
    ensures Budgeted(Run(events))
  {
    if events == [] {
    } else {
      var s, ev := Run(events[..|events| - 1]), events[|events| - 1];
      BudgetHolds(events[..|events| - 1]);
      SameBudget(s, Prepared(s, ev));
      match ev
      case Report(r, paths, snapshot, env) =>
        PunchAllBudgeted(Prepared(s, ev), r, Ascending(Edges(s.states, r, paths, snapshot)), env);
      case Connected(g, env) => PunchAllBudgeted(Prepared(s, ev), g, PeersOf(env, g), env);
      case Candidate(g, env) => PunchAllBudgeted(s, g, PeersOf(env, g), env);
      case Sweep(connected, env) => SweepAllBudgeted(s, connected, connected, env);
      case _ => SameBudget(s, Step(s, ev));
    }
  }

  // ---- the registry -----------------------------------------------------

  /** The channel of a gateway's most recent registration. */
  function Latest(events: seq<Event>, g: Gateway): Option<Channel> {
    if events == [] then None
    else
      var last := events[|events| - 1];
      if last.Register? && last.g == g then Some(last.ch) else Latest(events[..|events| - 1], g)
  }

  predicate Dropped(events: seq<Event>, g: Gateway, ch: Channel) {
    DropGuard(g, ch) in events
  }

  /** Each registration brings a channel of its own, and a guard is dropped only
      after it was created. */
  predicate FreshChannels(events: seq<Event>) {
    forall i, j :: 0 <= i < j < |events| && events[j].Register? ==>
      (events[i].Register? || events[i].DropGuard? ==> events[i].ch != events[j].ch)
  }

  lemma {:induction false} PunchAllKeepsRegistry(s: State, g: Gateway, peers: seq<Gateway>, env: Env)
    ensures PunchAll(s, g, peers, env).registry == s.registry
    decreases |peers|
  {
    if peers == [] {
    } else {
      PunchAllKeepsRegistry(EmitPair(ResetPair(s, g, peers[0]), g, peers[0], env), g, peers[1..], env);
    }
  }

  lemma {:induction false} SweepKeepsRegistry(s: State, todo: seq<Gateway>, connected: seq<Gateway>, env: Env)
    ensures SweepAll(s, todo, connected, env).registry == s.registry
    decreases |todo|
  {
    if todo == [] {
    } else {
      SweepPeersKeepsRegistry(s, todo[0], PeersOf(env, todo[0]), connected, env);
      SweepKeepsRegistry(SweepPeers(s, todo[0], PeersOf(env, todo[0]), connected, env), todo[1..], connected, env);
    }
  }

  lemma {:induction false} SweepPeersKeepsRegistry(s: State, g: Gateway, peers: seq<Gateway>,
                                                   connected: seq<Gateway>, env: Env)
    ensures SweepPeers(s, g, peers, connected, env).registry == s.registry
    decreases |peers|
  {
    if peers == [] {
    } else {
      var s1 := if peers[0] <= g || peers[0] !in connected then s else EmitPeriodic(s, g, peers[0], env);
      SweepPeersKeepsRegistry(s1, g, peers[1..], connected, env);
    }
  }

  lemma StepRegistry(s: State, ev: Event)
    requires !ev.Register? && !ev.DropGuard?
    ensures Step(s, ev).registry == s.registry
  {
    match ev
    case Report(r, paths, snapshot, env) =>
      PunchAllKeepsRegistry(Prepared(s, ev), r, Ascending(Edges(s.states, r, paths, snapshot)), env);
    case Connected(g, env) => PunchAllKeepsRegistry(Prepared(s, ev), g, PeersOf(env, g), env);
    case Candidate(g, env) => PunchAllKeepsRegistry(s, g, PeersOf(env, g), env);
    case Sweep(connected, env) => SweepKeepsRegistry(s, connected, connected, env);
  }

  /** A gateway is in the registry exactly while the guard of its most recent
      registration lives, and under that registration's channel; an older
      connection's late drop never removes a newer one. */
  lemma {:induction false} RegistryIsLatestLive(events: seq<Event>, g: Gateway)
    requires FreshChannels(events)
    ensures g in Run(events).registry <==> Latest(events, g).Some? && !Dropped(events, g, Latest(events, g).value)
    ensures g in Run(events).registry ==> Run(events).registry[g] == Latest(events, g).value
  {
    if events == [] {
    } else {
      var m := |events| - 1;
      var before, ev := events[..m], events[m];
      RegistryIsLatestLive(before, g);
      assert events == before + [ev];
      if ev.Register? && ev.g == g {
        forall i | 0 <= i < m ensures events[i] != DropGuard(g, ev.ch) {
        }
      } else if !ev.Register? && !ev.DropGuard? {
        StepRegistry(Run(before), ev);
      }
    }
  }
}
