/** Controller and gateway rotating together: the controller names an epoch, a
    directive travels, the gateway mints at that number, the key travels back.
    Keys may be delayed or repeated, the gateway may crash anywhere and the controller
    may restart. */
module RotationSystem {
  import opened Outcomes
  import T = EpochTable
  import D = RotationDriver
  import K = KeyStore

  type Epoch = nat

  /** The public half of a private key: any one-to-one function will do, as long as
      it never yields the sentinel. */
  function PubOf(k: K.Key): (pubkey: string)
    ensures pubkey != T.SENTINEL
  {
    var pubkey := seq(k + 1, _ => 'k');
    assert pubkey[0] == 'k' && T.SENTINEL[0] == 'a';
    pubkey
  }

  lemma PubOfIsInjective(a: K.Key, b: K.Key)
    requires PubOf(a) == PubOf(b)
    ensures a == b
  {
    assert |PubOf(a)| == a + 1 && |PubOf(b)| == b + 1;
  }

  /** The newest row, if it is still waiting for its key. */
  ghost function DirectiveFor(rows: T.Rows): Option<Epoch> {
    var n := T.NextEpoch(rows.Keys);
    if n > 0 && T.CanSet(rows, n - 1) then Some(n - 1) else None
  }

  /** A public key under way, with the nonce of the process that sent it. */
  datatype Submission = Submission(epoch: Epoch, pubkey: string, boot: nat)

  /** `boot` is the nonce of the running gateway process and `session` the one the
      controller noted when a process last opened its stream, unknown after the
      controller's own restart. `directives` are those sent down this process's stream.
      `accepted` is every epoch whose key the controller ever took; `busy` the
      rotation the gateway is in the middle of. Messages are never used up: any of
      them may arrive again. The enrollment key counts as submitted. */
  datatype State = State(
    ctl: D.State, gw: K.State, boot: nat, session: Option<nat>, directives: set<Epoch>,
    submissions: set<Submission>, accepted: set<Epoch>, busy: Option<Epoch>)

  datatype Event =
    | Controller(ev: D.Event)
    | Watch
    | Direct
    | Deliver(e: Epoch, newKey: K.Key, saved: bool)
    | Accept(m: Submission, expected: set<D.Peer>)
    | Unwind(saved: bool)
    | CutOver(saved: bool)
    | RetireOld(e: Epoch, saved: bool)
    | Crash

  /** The session check: a submission is turned away iff the session is known and
      another process sent it. */
  predicate Admits(s: State, m: Submission) {
    s.session.None? || s.session.value == m.boot
  }

  /** A pending row that has its key or can still get it: a directive for it was
      sent, or a key is on its way. */
  predicate Alive(s: State, p: Epoch) {
    && p in D.InState(s.ctl.rows, T.Pending)
    && (T.Real(s.ctl.rows[p]) || p in s.directives || Submitted(s, p))
  }

  predicate Submitted(s: State, e: Epoch) {
    exists m :: m in s.submissions && m.epoch == e
  }

  predicate SubmittedNow(s: State, e: Epoch) {
    exists m :: m in s.submissions && m.epoch == e && m.boot == s.boot
  }

  predicate NoneAlive(s: State) {
    forall p :: p in D.InState(s.ctl.rows, T.Pending) ==> !Alive(s, p)
  }

  /** What a run is asked to keep. `Alone`: a rotation begins only when no pending row
      is alive. `OncePerProcess`: no gateway process mints again at an epoch it sent
      a key for, and the controller, whose restart forgets the session, stays up.
      `OnceEver`: no process mints at an epoch any process sent a key for. */
  datatype Rule = Alone | OncePerProcess | OnceEver

  /** The gateway cuts over only to an epoch whose key the controller has taken. */
  ghost predicate Enabled(s: State, ev: Event, rule: Rule) {
    match ev
    case Controller(c) =>
      && !c.Submit?
      && (rule == Alone && c.Begin? ==> NoneAlive(s))
      && (rule == OncePerProcess ==> !c.Restart?)
    case Deliver(e, _, _) =>
      && e in s.directives
      && (rule == OncePerProcess ==> !SubmittedNow(s, e))
      && (rule == OnceEver ==> !Submitted(s, e))
    case Accept(m, _) => m in s.submissions
    case Unwind(_) => s.busy.Some?
    case CutOver(_) => s.busy.Some? && s.busy.value in s.accepted
    case _ => true
  }

  function Saved(g: K.State, saved: bool): K.State {
    if saved then K.Step(g, K.Persist) else g
  }

  ghost function Step(s: State, ev: Event): State {
    match ev
    case Controller(c) => s.(ctl := D.Step(s.ctl, c), session := if c.Restart? then None else s.session)
    case Watch => s.(session := Some(s.boot))
    case Direct =>
      var d := DirectiveFor(s.ctl.rows);
      if d.Some? && s.session == Some(s.boot) then s.(directives := s.directives + {d.value}) else s
    case Deliver(e, newKey, saved) =>
      if s.busy.Some? || K.Minted(s.gw.keys, e, newKey).None? then s
      else
        var minted := K.Step(s.gw, K.Mint(e, newKey));
        if saved then
          s.(gw := K.Step(minted, K.Persist), busy := Some(e),
             submissions := s.submissions + {Submission(e, PubOf(newKey), s.boot)})
        else s.(gw := K.Step(minted, K.DiscardKey(e)))
    case Accept(m, expected) =>
      if !Admits(s, m) then s
      else
        s.(ctl := D.Step(s.ctl, D.Submit(m.epoch, m.pubkey, expected)),
           accepted := if T.CanSet(s.ctl.rows, m.epoch) then s.accepted + {m.epoch} else s.accepted)
    case Unwind(saved) =>
      if s.busy.None? then s
      else s.(gw := Saved(K.Step(s.gw, K.DiscardKey(s.busy.value)), saved), busy := None)
    case CutOver(saved) =>
      if s.busy.None? then s else s.(gw := Saved(K.Step(s.gw, K.PromoteKey(s.busy.value)), saved))
    case RetireOld(e, saved) => s.(gw := Saved(K.Step(s.gw, K.RetireKey(e)), saved), busy := None)
    case Crash => s.(gw := K.Step(s.gw, K.Crash), boot := s.boot + 1, directives := {}, busy := None)
  }

  ghost function Initial(legacy: K.Key): State {
    State(D.Initial(PubOf(legacy)), K.Initial(legacy), 0, None, {}, {Submission(0, PubOf(legacy), 0)}, {}, None)
  }

  ghost predicate ValidFrom(s: State, events: seq<Event>, rule: Rule)
    decreases |events|
  {
    events == [] ||
    (Enabled(s, events[0], rule) && ValidFrom(Step(s, events[0]), events[1..], rule))
  }

  ghost function RunFrom(s: State, events: seq<Event>): State
    decreases |events|
  {
    if events == [] then s else RunFrom(Step(s, events[0]), events[1..])
  }

  // ---- the controller keeps what it accepted ----------------------------

  /** Some row not yet being retired holds a real key at epoch `a` or above. */
  predicate RealAtLeast(rows: T.Rows, a: Epoch) {
    exists e :: e in rows && e >= a && T.Real(rows[e]) && rows[e].state != T.Retiring
  }

  lemma EffectKeepsReal(rows: T.Rows, rows': T.Rows, a: Epoch)
    requires D.TableEffect(rows, rows') && D.KeyedNewest(rows) && RealAtLeast(rows, a)
    ensures RealAtLeast(rows', a)
  {
    var w :| w in rows && w >= a && T.Real(rows[w]) && rows[w].state != T.Retiring;
    assert w in rows' && T.Real(rows'[w]);
    if rows'[w].state == T.Retiring {
      D.OnlyOneIsActive(rows);
      D.OnlyOneIsActive(rows');
      assert w in D.InState(rows, rows[w].state);
      var e := T.ActiveOf(rows');
      assert e >= w && e in rows' && T.Real(rows'[e]);
    }
  }

  /** Everything the controller does but begin a rotation. */
  lemma ControllerEffect(s: D.State, c: D.Event)
    requires D.Sound(s) && !c.Begin? && !D.Drives(s, c)
    ensures D.Sound(D.Step(s, c)) && D.TableEffect(s.rows, D.Step(s, c).rows)
  {
    D.StepIsSound(s, c);
    if c.SweepTick? {
      D.SweepEffect(s, c.expected);
    }
  }

  lemma DrivenEffect(s: D.State, c: D.Event)
    requires D.Sound(s) && D.Drives(s, c)
    ensures D.Sound(D.Step(s, c)) && D.TableEffect(D.Recorded(s, c).rows, D.Step(s, c).rows)
  {
    D.StepIsSound(s, c);
    D.RecordedIsSound(s, c);
    D.DriveEffect(D.Recorded(s, c), c.expected);
  }

  // ---- what every run keeps ---------------------------------------------

  /** Every key the gateway runs or still owes a grace was accepted first. */
  predicate LiveWereAccepted(keys: K.Store, accepted: set<Epoch>) {
    forall i :: 0 <= i < |keys| && keys[i].phase != K.Pending ==> keys[i].epoch == 0 || keys[i].epoch in accepted
  }

  ghost predicate GatewaySound(s: State) {
    && K.Good(s.gw.keys) && K.Good(s.gw.disk)
    && LiveWereAccepted(s.gw.keys, s.accepted) && LiveWereAccepted(s.gw.disk, s.accepted)
  }

  lemma LiveKept(g: K.State, ev: K.Event, accepted: set<Epoch>)
    requires LiveWereAccepted(g.keys, accepted) && LiveWereAccepted(g.disk, accepted)
    requires ev.PromoteKey? ==> ev.e in accepted
    ensures LiveWereAccepted(K.Step(g, ev).keys, accepted) && LiveWereAccepted(K.Step(g, ev).disk, accepted)
  {
    var keys' := K.Step(g, ev).keys;
    forall i | 0 <= i < |keys'| && keys'[i].phase != K.Pending
      ensures keys'[i].epoch == 0 || keys'[i].epoch in accepted
    {
      if ev.Mint? || ev.RetireKey? || ev.DiscardKey? {
        assert keys'[i] in keys';
        K.WithoutMembers(g.keys, ev.e, keys'[i]);
      }
    }
  }

  lemma GatewayStep(g: K.State, ev: K.Event, saved: bool, accepted: set<Epoch>)
    requires K.Good(g.keys) && K.Good(g.disk)
    requires LiveWereAccepted(g.keys, accepted) && LiveWereAccepted(g.disk, accepted)
    requires ev.PromoteKey? ==> ev.e in accepted
    ensures var g' := Saved(K.Step(g, ev), saved);
            && K.Good(g'.keys) && K.Good(g'.disk)
            && LiveWereAccepted(g'.keys, accepted) && LiveWereAccepted(g'.disk, accepted)
  {
    K.StepIsGood(g, ev);
    LiveKept(g, ev, accepted);
  }

  lemma GatewayKept(s: State, ev: Event, rule: Rule)
    requires GatewaySound(s) && Enabled(s, ev, rule)
    ensures GatewaySound(Step(s, ev))
  {
    match ev
    case Deliver(e, newKey, saved) =>
      GatewayStep(s.gw, K.Mint(e, newKey), saved, s.accepted);
      if !saved {
        GatewayStep(K.Step(s.gw, K.Mint(e, newKey)), K.DiscardKey(e), false, s.accepted);
      }
    case Unwind(saved) => GatewayStep(s.gw, K.DiscardKey(s.busy.value), saved, s.accepted);
    case CutOver(saved) => GatewayStep(s.gw, K.PromoteKey(s.busy.value), saved, s.accepted);
    case RetireOld(e, saved) => GatewayStep(s.gw, K.RetireKey(e), saved, s.accepted);
    case Crash => GatewayStep(s.gw, K.Crash, false, s.accepted);
    case _ =>
  }

  /** The table's side: a live pending row is the newest one, what was accepted is
      covered by a row at or above it, and an awaited number was never accepted. */
  ghost predicate TableSound(s: State) {
    && D.Sound(s.ctl) && 0 !in D.InState(s.ctl.rows, T.Pending)
    && (forall p :: Alive(s, p) ==> D.Newest(s.ctl.rows, p))
    && (forall a :: a in s.accepted ==> RealAtLeast(s.ctl.rows, a) && !T.CanSet(s.ctl.rows, a))
    && (forall m :: m in s.submissions ==> m.pubkey != T.SENTINEL)
  }

  ghost predicate Sound(s: State) {
    TableSound(s) && GatewaySound(s)
  }

  lemma KeyedAreNewest(s: State)
    requires TableSound(s)
    ensures D.KeyedNewest(s.ctl.rows)
  {
    forall p, r | p in D.InState(s.ctl.rows, T.Pending) && T.Real(s.ctl.rows[p]) && r in s.ctl.rows ensures r <= p {
      assert Alive(s, p);
    }
  }

  /** A change of the table that adds no row and keys none. */
  lemma TableKept(s: State, rows': T.Rows, ctl': D.State)
    requires TableSound(s) && D.Sound(ctl') && ctl'.rows == rows' && D.TableEffect(s.ctl.rows, rows')
    ensures TableSound(s.(ctl := ctl'))
  {
    var s' := s.(ctl := ctl');
    KeyedAreNewest(s);
    forall p: Epoch | Alive(s', p) ensures D.Newest(rows', p) {
      assert Alive(s, p);
    }
    forall a | a in s.accepted ensures RealAtLeast(rows', a) && !T.CanSet(rows', a) {
      EffectKeepsReal(s.ctl.rows, rows', a);
      assert T.CanSet(rows', a) ==> a in D.InState(rows', T.Pending);
    }
  }

  lemma BeginKept(s: State)
    requires TableSound(s) && NoneAlive(s)
    ensures TableSound(Step(s, Controller(D.Begin)))
  {
    var rows, s' := s.ctl.rows, Step(s, Controller(D.Begin));
    var n := T.NextEpoch(rows.Keys);
    D.BeginIsSound(s.ctl);
    D.BeginStates(rows);
    forall p: Epoch | Alive(s', p) ensures D.Newest(s'.ctl.rows, p) {
      assert p != n ==> Alive(s, p);
    }
    forall a | a in s.accepted ensures RealAtLeast(s'.ctl.rows, a) && !T.CanSet(s'.ctl.rows, a) {
      var w :| w in rows && w >= a && T.Real(rows[w]) && rows[w].state != T.Retiring;
      assert w in s'.ctl.rows && s'.ctl.rows[w] == rows[w];
    }
  }

  lemma AcceptRecorded(s: State, m: Submission, expected: set<D.Peer>)
    requires TableSound(s) && m in s.submissions && T.CanSet(s.ctl.rows, m.epoch)
    ensures var r := D.Recorded(s.ctl, D.Submit(m.epoch, m.pubkey, expected));
            TableSound(s.(ctl := r, accepted := s.accepted + {m.epoch}))
  {
    var e := m.epoch;
    var c := D.Submit(e, m.pubkey, expected);
    D.RecordedIsSound(s.ctl, c);
    var r := D.Recorded(s.ctl, c);
    var s' := s.(ctl := r, accepted := s.accepted + {e});
    assert Submitted(s, e);
    forall p: Epoch | Alive(s', p) ensures D.Newest(r.rows, p) {
      assert Alive(s, p);
    }
    forall a | a in s'.accepted ensures RealAtLeast(r.rows, a) && !T.CanSet(r.rows, a) {
      if a == e {
        assert e in r.rows && T.Real(r.rows[e]);
      } else {
        var w :| w in s.ctl.rows && w >= a && T.Real(s.ctl.rows[w]) && s.ctl.rows[w].state != T.Retiring;
        assert w != e && r.rows[w] == s.ctl.rows[w];
      }
    }
  }

  lemma AcceptKept(s: State, m: Submission, expected: set<D.Peer>)
    requires TableSound(s) && m in s.submissions
    ensures TableSound(Step(s, Accept(m, expected)))
  {
    var c := D.Submit(m.epoch, m.pubkey, expected);
    if Admits(s, m) && T.CanSet(s.ctl.rows, m.epoch) {
      AcceptRecorded(s, m, expected);
      DrivenEffect(s.ctl, c);
      var r := s.(ctl := D.Recorded(s.ctl, c), accepted := s.accepted + {m.epoch});
      TableKept(r, D.Step(s.ctl, c).rows, D.Step(s.ctl, c));
    }
  }

  lemma DirectKept(s: State)
    requires TableSound(s)
    ensures TableSound(Step(s, Direct))
  {
    var s' := Step(s, Direct);
    forall p: Epoch | Alive(s', p) ensures D.Newest(s'.ctl.rows, p) {
      if !Alive(s, p) {
        assert DirectiveFor(s.ctl.rows) == Some(p);
        assert T.IsNext(s.ctl.rows.Keys, p + 1);
      }
    }
  }

  lemma DeliverKept(s: State, e: Epoch, newKey: K.Key, saved: bool)
    requires TableSound(s) && e in s.directives
    ensures TableSound(Step(s, Deliver(e, newKey, saved)))
  {
    var s' := Step(s, Deliver(e, newKey, saved));
    forall p: Epoch | Alive(s', p) ensures D.Newest(s'.ctl.rows, p) {
      if !T.Real(s.ctl.rows[p]) && p !in s.directives {
        var m :| m in s'.submissions && m.epoch == p;
        assert m in s.submissions;
        assert Submitted(s, p);
      }
      assert Alive(s, p);
    }
  }

  /** Streams and sessions do not matter to the table. */
  lemma SessionKept(s: State, boot: nat, session: Option<nat>, fewer: set<Epoch>)
    requires TableSound(s) && fewer <= s.directives
    ensures TableSound(s.(boot := boot, session := session, directives := fewer))
  {
    var s' := s.(boot := boot, session := session, directives := fewer);
    forall p: Epoch | Alive(s', p) ensures D.Newest(s'.ctl.rows, p) {
      assert Submitted(s', p) ==> Submitted(s, p);
      assert Alive(s, p);
    }
  }

  lemma ControllerKept(s: State, c: D.Event)
    requires TableSound(s) && !c.Submit? && (c.Begin? ==> NoneAlive(s))
    ensures TableSound(Step(s, Controller(c)))
  {
    if c.Begin? {
      BeginKept(s);
    } else if D.Drives(s.ctl, c) {
      DrivenEffect(s.ctl, c);
      assert D.Recorded(s.ctl, c).rows == s.ctl.rows;
      TableKept(s, D.Step(s.ctl, c).rows, D.Step(s.ctl, c));
    } else {
      ControllerEffect(s.ctl, c);
      TableKept(s, D.Step(s.ctl, c).rows, D.Step(s.ctl, c));
      SessionKept(s.(ctl := D.Step(s.ctl, c)), s.boot, Step(s, Controller(c)).session, s.directives);
    }
  }

  lemma StepIsSound(s: State, ev: Event)
    requires Sound(s) && Enabled(s, ev, Alone)
    ensures Sound(Step(s, ev))
  {
    GatewayKept(s, ev, Alone);
    match ev
    case Controller(c) => ControllerKept(s, c);
    case Watch => SessionKept(s, s.boot, Some(s.boot), s.directives);
    case Direct => DirectKept(s);
    case Deliver(e, newKey, saved) => DeliverKept(s, e, newKey, saved);
    case Accept(m, expected) => AcceptKept(s, m, expected);
    case Crash => SessionKept(s, s.boot + 1, s.session, {});
    case _ =>
  }

  lemma InitialIsSound(legacy: K.Key)
    ensures Sound(Initial(legacy))
  {
    D.RunIsSound(PubOf(legacy), []);
    K.RunIsGood(legacy, []);
    assert D.InState(D.Initial(PubOf(legacy)).rows, T.Pending) == {};
  }

  lemma {:induction false} RunIsSound(s: State, events: seq<Event>)
    requires Sound(s) && ValidFrom(s, events, Alone)
    ensures Sound(RunFrom(s, events))
    decreases |events|
  {
    if events == [] {
    } else {
      StepIsSound(s, events[0]);
      RunIsSound(Step(s, events[0]), events[1..]);
    }
  }

  // ---- mints ------------------------------------------------------------

  /** The gateway would accept a mint at every epoch the controller waits for. */
  ghost predicate NoAwaitedRefused(s: State) {
    forall e, k :: T.CanSet(s.ctl.rows, e) ==> K.Minted(s.gw.keys, e, k).Some?
  }

  lemma UnacceptedIsMintable(keys: K.Store, accepted: set<Epoch>, e: Epoch, k: K.Key)
    requires LiveWereAccepted(keys, accepted) && e > 0 && e !in accepted
    ensures K.Minted(keys, e, k).Some?
  {
  }

  lemma SoundNeverRefuses(s: State)
    requires Sound(s)
    ensures NoAwaitedRefused(s)
  {
    forall e: Epoch, k: K.Key | T.CanSet(s.ctl.rows, e) ensures K.Minted(s.gw.keys, e, k).Some? {
      assert e in D.InState(s.ctl.rows, T.Pending);
      UnacceptedIsMintable(s.gw.keys, s.accepted, e, k);
    }
  }

  /** Begin rotations only when no pending row is alive, and a mint at an epoch the
      controller waits for is never refused: not after crashes, not after aborts,
      not when an aborted number is issued again over a pending key a crash left
      behind. */
  lemma CurrentMintNeverRefused(legacy: K.Key, events: seq<Event>)
    requires ValidFrom(Initial(legacy), events, Alone)
    ensures NoAwaitedRefused(RunFrom(Initial(legacy), events))
  {
    InitialIsSound(legacy);
    RunIsSound(Initial(legacy), events);
    SoundNeverRefuses(RunFrom(Initial(legacy), events));
  }

  /** A directive names the newest row, above every key accepted before it. */
  lemma DirectiveIsCurrent(s: State)
    requires Sound(s) && DirectiveFor(s.ctl.rows).Some?
    ensures var e := DirectiveFor(s.ctl.rows).value;
            && T.CanSet(s.ctl.rows, e) && D.Newest(s.ctl.rows, e)
            && (forall a :: a in s.accepted ==> a < e)
  {
    var e := DirectiveFor(s.ctl.rows).value;
    assert T.IsNext(s.ctl.rows.Keys, e + 1);
    forall a | a in s.accepted ensures a < e {
      var w :| w in s.ctl.rows && w >= a && T.Real(s.ctl.rows[w]) && s.ctl.rows[w].state != T.Retiring;
    }
  }

  /** So does any row that awaits its key and can still get it. */
  lemma AwaitingIsAbove(s: State, e: Epoch)
    requires Sound(s) && Alive(s, e) && T.CanSet(s.ctl.rows, e)
    ensures D.Newest(s.ctl.rows, e) && forall a :: a in s.accepted ==> a < e
  {
    forall a | a in s.accepted ensures a < e {
      var w :| w in s.ctl.rows && w >= a && T.Real(s.ctl.rows[w]) && s.ctl.rows[w].state != T.Retiring;
      assert w != e;
    }
  }

  /** A refusal therefore convicts the directive: its number was accepted before,
      and the row it names has its key or is gone. */
  lemma RefusedMeansStale(s: State, e: Epoch, k: K.Key)
    requires Sound(s) && K.Minted(s.gw.keys, e, k).None?
    ensures !T.CanSet(s.ctl.rows, e) && (e == 0 || e in s.accepted)
  {
    SoundNeverRefuses(s);
  }

  // ---- when a mint can be refused ---------------------------------------

  ghost function Begun(s: State): State {
    Step(s, Controller(D.Begin))
  }

  lemma {:induction false} RunFromThen(s: State, a: seq<Event>, b: seq<Event>)
    ensures RunFrom(s, a + b) == RunFrom(RunFrom(s, a), b)
    ensures ValidFrom(s, a + b, Alone) <==> ValidFrom(s, a, Alone) && ValidFrom(RunFrom(s, a), b, Alone)
    decreases |a|
  {
    if a == [] {
      assert a + b == b;
    } else {
      assert (a + b)[0] == a[0] && (a + b)[1..] == a[1..] + b;
      RunFromThen(Step(s, a[0]), a[1..], b);
    }
  }

  lemma One(s: State, ev: Event, rule: Rule)
    ensures RunFrom(s, [ev]) == Step(s, ev)
    ensures ValidFrom(s, [ev], rule) <==> Enabled(s, ev, rule)
  {
    assert [ev][1..] == [];
  }

  /** `events` leads from `s` to `t`. */
  ghost predicate Leads(s: State, events: seq<Event>, t: State) {
    ValidFrom(s, events, Alone) && RunFrom(s, events) == t
  }

  lemma Extend(s: State, events: seq<Event>, t: State, ev: Event) returns (longer: seq<Event>, t': State)
    requires Leads(s, events, t) && Enabled(t, ev, Alone)
    ensures Leads(s, longer, t') && t' == Step(t, ev) && longer == events + [ev]
  {
    longer := events + [ev];
    t' := Step(t, ev);
    RunFromThen(s, events, [ev]);
    One(t, ev, Alone);
  }

  /** A stretch of controller moves that begin nothing. */
  lemma {:induction false} ExtendController(s: State, events: seq<Event>, t: State, moves: seq<D.Event>)
    returns (longer: seq<Event>, t': State)
    requires Leads(s, events, t)
    requires forall i :: 0 <= i < |moves| ==> !moves[i].Submit? && !moves[i].Begin? && !moves[i].Restart?
    ensures Leads(s, longer, t') && t' == t.(ctl := D.RunFrom(t.ctl, moves))
    decreases |moves|
  {
    if moves == [] {
      longer, t' := events, t;
    } else {
      longer, t' := Extend(s, events, t, Controller(moves[0]));
      longer, t' := ExtendController(s, longer, t', moves[1..]);
    }
  }

  /** The gateway mints at an epoch it is directed to and was never accepted for,
      giving up what it was at; the key is on its way and on disk. */
  lemma MintNext(s: State, events: seq<Event>, t: State, e: Epoch, k: K.Key)
    returns (longer: seq<Event>, t': State)
    requires Leads(s, events, t) && GatewaySound(t) && e in t.directives && e > 0 && e !in t.accepted
    ensures Leads(s, longer, t') && GatewaySound(t')
    ensures t' == t.(gw := t'.gw, busy := Some(e), submissions := t.submissions + {Submission(e, PubOf(k), t.boot)})
    ensures K.Holds(t'.gw.keys, e, K.Pending)
  {
    longer, t' := events, t;
    if t.busy.Some? {
      GatewayKept(t, Unwind(true), Alone);
      longer, t' := Extend(s, events, t, Unwind(true));
    }
    UnacceptedIsMintable(t'.gw.keys, t'.accepted, e, k);
    GatewayKept(t', Deliver(e, k, true), Alone);
    longer, t' := Extend(s, longer, t', Deliver(e, k, true));
    var keys := t'.gw.keys;
    assert keys[|keys| - 1] == K.EpochKey(e, k, K.Pending);
  }

  ghost function Restarted(s: State): State {
    Step(s, Controller(D.Restart))
  }

  lemma RestartedIsSound(s: State, p: Epoch)
    requires Sound(s) && Alive(s, p)
    ensures Sound(Restarted(s)) && Alive(Restarted(s), p)
    ensures Begun(Restarted(s)).ctl == D.Step(Begun(s).ctl, D.Restart)
  {
    StepIsSound(s, Controller(D.Restart));
    assert Submitted(s, p) ==> Submitted(Restarted(s), p);
    D.BeginStates(s.ctl.rows);
  }

  lemma AliveIsLive(s: State, p: Epoch)
    requires Sound(s) && Alive(s, p)
    ensures D.LivePending(s.ctl.rows) == Some(p) && T.NextEpoch(s.ctl.rows.Keys) == p + 1
  {
    D.LiveIs(s.ctl.rows, p);
    D.NextIs(s.ctl.rows.Keys, p + 1);
  }

  lemma BegunIsDirected(s: State, p: Epoch)
    requires Sound(s) && Alive(s, p)
    ensures DirectiveFor(Begun(s).ctl.rows) == Some(p + 1)
  {
    AliveIsLive(s, p);
    D.BegunOnTop(s.ctl, p + 1);
    D.NextIs(Begun(s).ctl.rows.Keys, p + 2);
  }

  /** The gateway is told of the newer epoch; then the controller restarts, and will
      take a key from any process. */
  lemma DirectedThenRestarted(s: State, p: Epoch) returns (events: seq<Event>, t: State)
    requires Sound(s) && Alive(s, p)
    ensures Leads(Begun(s), events, t) && GatewaySound(t)
    ensures t == s.(ctl := Begun(Restarted(s)).ctl, session := None, directives := s.directives + {p + 1})
  {
    RestartedIsSound(s, p);
    BegunIsDirected(s, p);
    t, events := Begun(s), [];
    GatewayKept(s, Controller(D.Begin), OnceEver);
    events, t := Extend(Begun(s), events, t, Watch);
    events, t := Extend(Begun(s), events, t, Direct);
    events, t := Extend(Begun(s), events, t, Controller(D.Restart));
  }

  lemma NumbersUnaccepted(s: State, p: Epoch)
    requires Sound(s) && Alive(s, p)
    ensures p + 1 !in s.accepted && (T.CanSet(s.ctl.rows, p) ==> p !in s.accepted) && p > 0
  {
    assert p in D.InState(s.ctl.rows, T.Pending);
    assert !RealAtLeast(s.ctl.rows, p + 1);
  }

  lemma BegunKeepsOlder(s: State, p: Epoch)
    requires Sound(s) && Alive(s, p)
    ensures T.CanSet(Begun(Restarted(s)).ctl.rows, p) <==> T.CanSet(s.ctl.rows, p)
  {
    AliveIsLive(s, p);
  }

  /** The older epoch's key is on its way, if it is still awaited. */
  lemma OlderSubmitted(s: State, p: Epoch) returns (events: seq<Event>, t: State, older: Submission)
    requires Sound(s) && Alive(s, p)
    ensures Leads(Begun(s), events, t) && GatewaySound(t) && older.epoch == p && older.pubkey != T.SENTINEL
    ensures t == s.(ctl := Begun(Restarted(s)).ctl, gw := t.gw, session := None, directives := s.directives + {p + 1},
                    submissions := t.submissions, busy := t.busy)
    ensures T.CanSet(t.ctl.rows, p) ==> older in t.submissions
  {
    BegunKeepsOlder(s, p);
    NumbersUnaccepted(s, p);
    events, t := DirectedThenRestarted(s, p);
    older := Submission(p, PubOf(0), s.boot);
    if T.CanSet(t.ctl.rows, p) {
      if Submitted(s, p) {
        older :| older in s.submissions && older.epoch == p;
      } else {
        events, t := MintNext(Begun(s), events, t, p, 0);
      }
    }
  }

  /** From a rotation begun on top of a live one: both keys are on their way. */
  lemma BothSubmitted(s: State, p: Epoch) returns (events: seq<Event>, t: State, older: Submission)
    requires Sound(s) && Alive(s, p)
    ensures Leads(Begun(s), events, t) && GatewaySound(t) && older.epoch == p && older.pubkey != T.SENTINEL
    ensures t.ctl == Begun(Restarted(s)).ctl && t.session == None && t.boot == s.boot && t.busy == Some(p + 1)
    ensures K.Holds(t.gw.keys, p + 1, K.Pending)
    ensures T.CanSet(t.ctl.rows, p) ==> older in t.submissions
    ensures Submission(p + 1, PubOf(1), s.boot) in t.submissions
  {
    NumbersUnaccepted(s, p);
    events, t, older := OlderSubmitted(s, p);
    events, t := MintNext(Begun(s), events, t, p + 1, 1);
  }

  /** The older key, if it was still awaited, is accepted. */
  lemma OlderAccepted(s: State, p: Epoch) returns (events: seq<Event>, t: State, k1: string)
    requires Sound(s) && Alive(s, p)
    ensures Leads(Begun(s), events, t) && GatewaySound(t) && k1 != T.SENTINEL
    ensures t.ctl == D.Step(Begun(Restarted(s)).ctl, D.Submit(p, k1, {})) && T.CanSet(t.ctl.rows, p + 1)
    ensures t.session == None && t.busy == Some(p + 1) && K.Holds(t.gw.keys, p + 1, K.Pending)
    ensures Submission(p + 1, PubOf(1), s.boot) in t.submissions
  {
    RestartedIsSound(s, p);
    AliveIsLive(Restarted(s), p);
    D.BegunOnTop(Restarted(s).ctl, p + 1);
    var older: Submission;
    events, t, older := BothSubmitted(s, p);
    k1 := older.pubkey;
    D.OlderKeyed(t.ctl, p, p + 1, k1);
    if T.CanSet(t.ctl.rows, p) {
      GatewayKept(t, Accept(older, {}), Alone);
      events, t := Extend(Begun(s), events, t, Accept(older, {}));
    }
  }

  /** Both keys accepted, and the gateway cut over to the newer one. */
  lemma BothAccepted(s: State, p: Epoch) returns (events: seq<Event>, t: State, k1: string)
    requires Sound(s) && Alive(s, p)
    ensures Leads(Begun(s), events, t) && k1 != T.SENTINEL
    ensures t.ctl == D.RunFrom(Begun(Restarted(s)).ctl, D.Stacked(p, p + 1, k1, PubOf(1)))
    ensures K.Holds(t.gw.keys, p + 1, K.Active) && K.Good(t.gw.keys)
  {
    events, t, k1 := OlderAccepted(s, p);
    var newer := Submission(p + 1, PubOf(1), s.boot);
    D.TwoEvents(Begun(Restarted(s)).ctl, D.Submit(p, k1, {}), D.Submit(p + 1, PubOf(1), {}));
    GatewayKept(t, Accept(newer, {}), Alone);
    events, t := Extend(Begun(s), events, t, Accept(newer, {}));
    events, t := ExtendCutOver(Begun(s), events, t, p + 1);
  }

  lemma ExtendCutOver(s: State, events: seq<Event>, t: State, e: Epoch) returns (longer: seq<Event>, t': State)
    requires Leads(s, events, t) && GatewaySound(t) && t.busy == Some(e) && e in t.accepted
    requires K.Holds(t.gw.keys, e, K.Pending)
    ensures Leads(s, longer, t') && t'.ctl == t.ctl
    ensures K.Holds(t'.gw.keys, e, K.Active) && K.Good(t'.gw.keys)
  {
    GatewayKept(t, CutOver(true), Alone);
    PromotedHolds(t.gw.keys, e);
    longer, t' := Extend(s, events, t, CutOver(true));
  }

  lemma PromotedHolds(keys: K.Store, e: Epoch)
    requires K.Holds(keys, e, K.Pending)
    ensures K.PromotedAt(keys, e).Some? && K.Holds(K.PromotedAt(keys, e).value, e, K.Active)
  {
    var i :| 0 <= i < |keys| && keys[i].epoch == e && keys[i].phase == K.Pending;
    var at := K.IndexOf(keys, e);
    var keys' := K.PromotedAt(keys, e).value;
    assert keys'[at].epoch == e && keys'[at].phase == K.Active;
  }

  lemma OccupiedRefuses(keys: K.Store, e: Epoch, k: K.Key)
    requires K.Good(keys) && K.Holds(keys, e, K.Active)
    ensures K.Minted(keys, e, k).None?
  {
    var i :| 0 <= i < |keys| && keys[i].epoch == e && keys[i].phase == K.Active;
    K.OnlyIndex(keys, i);
  }

  /** The controller, left to itself, promotes the newer row, then the older one,
      and sweeps the table down to the latter. */
  lemma AftermathLeavesOlder(s: State, p: Epoch, k1: string, k2: string) returns (m: nat)
    requires Sound(s) && Alive(s, p) && k1 != T.SENTINEL && k2 != T.SENTINEL
    ensures var keyed := D.RunFrom(D.Step(s.ctl, D.Begin), D.Stacked(p, p + 1, k1, k2));
            var low := D.RunFrom(D.RunFrom(keyed, D.Promoting()), D.Promoting());
            var f := D.RunFrom(low, D.Settling(m));
            D.Settled(f.rows) && f.rows.Keys == {p}
    ensures forall i :: 0 <= i < |D.Settling(m)| ==>
              !D.Settling(m)[i].Submit? && !D.Settling(m)[i].Begin? && !D.Settling(m)[i].Restart?
  {
    AliveIsLive(s, p);
    D.StackedRotationLowersActive(s.ctl, p, p + 1, k1, k2);
    var keyed := D.RunFrom(D.Step(s.ctl, D.Begin), D.Stacked(p, p + 1, k1, k2));
    var low := D.RunFrom(D.RunFrom(keyed, D.Promoting()), D.Promoting());
    OthersUnkeyed(s, p, low.rows);
    m := 2 * |D.InState(low.rows, T.Pending)| + 2;
    D.SettlesToActive(low, m);
    D.SettlingCounts(m, D.ABORT_AFTER);
  }

  lemma OthersUnkeyed(s: State, p: Epoch, rows: T.Rows)
    requires Sound(s) && Alive(s, p)
    requires D.InState(rows, T.Pending) == D.InState(s.ctl.rows, T.Pending) - {p}
    requires forall q :: q in D.InState(rows, T.Pending) ==> rows[q] == s.ctl.rows[q]
    ensures D.NoneKeyed(rows)
  {
    forall q | q in D.InState(rows, T.Pending) ensures !T.Real(rows[q]) {
      assert T.Real(rows[q]) ==> Alive(s, q);
    }
  }

  /** From there the next rotation takes the number the gateway is already on. */
  lemma NextIsRefused(s: State, events: seq<Event>, t: State, p: Epoch) returns (longer: seq<Event>, t': State)
    requires Leads(s, events, t) && D.Settled(t.ctl.rows) && t.ctl.rows.Keys == {p}
    requires K.Good(t.gw.keys) && K.Holds(t.gw.keys, p + 1, K.Active)
    ensures Leads(s, longer, t') && !NoAwaitedRefused(t')
  {
    longer, t' := Extend(s, events, t, Controller(D.Begin));
    D.NextIs({p}, p + 1);
    assert T.CanSet(t'.ctl.rows, p + 1);
    OccupiedRefuses(t'.gw.keys, p + 1, 0);
    assert K.Minted(t'.gw.keys, p + 1, 0).None?;
  }

  /** A rotation begun while another is alive can wedge the gateway: the controller
      ends up waiting for a key at a number the gateway has already cut over to. */
  lemma StackedRotationWedgesMint(s: State, p: Epoch) returns (events: seq<Event>)
    requires Sound(s) && Alive(s, p)
    ensures ValidFrom(Begun(s), events, Alone) && !NoAwaitedRefused(RunFrom(Begun(s), events))
  {
    var t: State, k1: string;
    events, t, k1 := BothAccepted(s, p);
    RestartedIsSound(s, p);
    var m := AftermathLeavesOlder(Restarted(s), p, k1, PubOf(1));
    events, t := ExtendController(Begun(s), events, t, D.Promoting());
    events, t := ExtendController(Begun(s), events, t, D.Promoting());
    events, t := ExtendController(Begun(s), events, t, D.Settling(m));
    events, t := NextIsRefused(Begun(s), events, t, p);
  }

  /** Exact: after a rotation begins, no run that begins later ones with no live row
      pending ever has the gateway refuse an awaited mint iff no live row was
      pending when it began. */
  lemma MintSafeIff(s: State)
    requires Sound(s)
    ensures (forall events :: ValidFrom(Begun(s), events, Alone) ==> NoAwaitedRefused(RunFrom(Begun(s), events)))
            <==> NoneAlive(s)
  {
    if NoneAlive(s) {
      forall events | ValidFrom(Begun(s), events, Alone) ensures NoAwaitedRefused(RunFrom(Begun(s), events)) {
        StepIsSound(s, Controller(D.Begin));
        RunIsSound(Begun(s), events);
        SoundNeverRefuses(RunFrom(Begun(s), events));
      }
    } else {
      var p :| p in D.InState(s.ctl.rows, T.Pending) && Alive(s, p);
      var events := StackedRotationWedgesMint(s, p);
    }
  }

  lemma BegunAndDirected(legacy: K.Key) returns (t: State)
    ensures Leads(Initial(legacy), [Watch, Controller(D.Begin), Direct], t)
    ensures t == Initial(legacy).(ctl := t.ctl, session := Some(0), directives := {1})
    ensures Sound(t) && DirectiveFor(t.ctl.rows) == Some(1) && Alive(t, 1)
  {
    InitialIsSound(legacy);
    D.NextIs({0}, 1);
    D.NextIs({0, 1}, 2);
    var s := Initial(legacy);
    var events := [];
    events, t := Extend(s, events, s, Watch);
    assert D.InState(t.ctl.rows, T.Pending) == {};
    events, t := Extend(s, events, t, Controller(D.Begin));
    assert t.ctl.rows.Keys == {0, 1};
    events, t := Extend(s, events, t, Direct);
    assert events == [Watch, Controller(D.Begin), Direct];
    RunIsSound(s, events);
  }

  /** From enrollment: one rotation begun and its directive sent, another begun on
      top, and a run from there that ends with an awaited epoch refused. */
  lemma TwoBeginsWedgeMint(legacy: K.Key) returns (events: seq<Event>)
    ensures var first := [Watch, Controller(D.Begin), Direct];
            var s := RunFrom(Initial(legacy), first);
            && ValidFrom(Initial(legacy), first, Alone)
            && ValidFrom(Begun(s), events, Alone) && !NoAwaitedRefused(RunFrom(Begun(s), events))
  {
    var s := BegunAndDirected(legacy);
    events := StackedRotationWedgesMint(s, 1);
  }

  // ---- is the accepted key the one the gateway holds? -------------------

  predicate HeldBy(g: K.State, k: K.EpochKey) {
    k in g.keys || k in g.disk
  }

  /** If the controller has a real key for the epoch and the gateway holds one, they
      are the two halves of one pair. */
  ghost predicate AgreeAt(s: State, e: Epoch) {
    e in s.ctl.rows && T.Real(s.ctl.rows[e]) ==>
      forall k :: HeldBy(s.gw, k) && k.epoch == e ==> s.ctl.rows[e].pubkey == PubOf(k.priv)
  }

  ghost predicate KeysAgree(s: State) {
    forall e :: AgreeAt(s, e)
  }

  /** Promoting, retiring and discarding bring no key that was not there. */
  lemma GatewayInventsNothing(g: K.State, ev: K.Event, k: K.EpochKey)
    requires !ev.Mint? && k in K.Step(g, ev).keys
    ensures exists had :: (had in g.keys || had in g.disk) && had.epoch == k.epoch && had.priv == k.priv
  {
    if ev.RetireKey? || ev.DiscardKey? {
      K.WithoutMembers(g.keys, ev.e, k);
    } else if ev.PromoteKey? {
      var i :| 0 <= i < |K.Step(g, ev).keys| && K.Step(g, ev).keys[i] == k;
      assert g.keys[i] in g.keys;
    }
  }

  /** Nor does the table get a key but by a submission. */
  predicate NothingKeyed(rows: T.Rows, rows': T.Rows) {
    forall e :: e in rows' && T.Real(rows'[e]) ==> e in rows && rows[e].pubkey == rows'[e].pubkey
  }

  lemma ControllerKeysNothing(s: D.State, c: D.Event)
    requires D.Sound(s) && !c.Submit?
    ensures D.Sound(D.Step(s, c)) && NothingKeyed(s.rows, D.Step(s, c).rows)
  {
    D.StepIsSound(s, c);
    if c.Begin? {
      assert !T.Real(T.Row(T.SENTINEL, T.Pending));
    } else if D.Drives(s, c) {
      DrivenEffect(s, c);
    } else {
      ControllerEffect(s, c);
    }
  }

  lemma SubmitKeysOne(s: D.State, e: Epoch, pubkey: string, expected: set<D.Peer>)
    requires D.Sound(s)
    ensures var c := D.Submit(e, pubkey, expected);
            && D.Sound(D.Step(s, c))
            && NothingKeyed(if T.CanSet(s.rows, e) then D.Filled(s.rows, e, pubkey) else s.rows, D.Step(s, c).rows)
  {
    var c := D.Submit(e, pubkey, expected);
    D.StepIsSound(s, c);
    if T.CanSet(s.rows, e) {
      DrivenEffect(s, c);
    }
  }

  /** A mint adds the new key and drops what was held at its number. */
  lemma MintHolds(g: K.State, e: Epoch, newKey: K.Key, saved: bool, k: K.EpochKey)
    requires K.Minted(g.keys, e, newKey).Some?
    requires var minted := K.Step(g, K.Mint(e, newKey));
             var g' := if saved then K.Step(minted, K.Persist) else K.Step(minted, K.DiscardKey(e));
             k in g'.keys || (saved && k in g'.disk)
    ensures if k.epoch == e then saved && k.priv == newKey else k in g.keys
  {
    var minted := K.Step(g, K.Mint(e, newKey));
    if !saved {
      assert K.Holds(minted.keys, e, K.Pending) by {
        assert minted.keys[|minted.keys| - 1] == K.EpochKey(e, newKey, K.Pending);
      }
      K.WithoutMembers(minted.keys, e, k);
    }
    K.WithoutMembers(g.keys, e, k);
  }

  // ---- with the session check in force ----------------------------------

  /** Submissions come from the session's process or earlier ones, and directives
      mean the session is this process's. */
  predicate SessionCurrent(s: State) {
    && (forall m :: m in s.submissions ==> m.boot <= s.boot && (s.session.Some? ==> m.boot <= s.session.value))
    && (s.session.Some? ==> s.session.value <= s.boot)
    && (s.directives != {} ==> s.session == Some(s.boot))
  }

  /** Whatever the controller would take now for the epoch is what the gateway holds
      there. */
  ghost predicate TakenIsHeld(s: State, e: Epoch) {
    forall k, m :: HeldBy(s.gw, k) && k.epoch == e && m in s.submissions && m.epoch == e && Admits(s, m) ==>
      m.pubkey == PubOf(k.priv)
  }

  /** A directed epoch has its key only from this process. */
  predicate DirectedIsOurs(s: State, e: Epoch) {
    e in s.directives && e in s.ctl.rows && T.Real(s.ctl.rows[e]) ==> SubmittedNow(s, e)
  }

  ghost predicate Matched(s: State, e: Epoch) {
    D.Sound(s.ctl) && SessionCurrent(s) && AgreeAt(s, e) && TakenIsHeld(s, e) && DirectedIsOurs(s, e)
  }

  lemma WatchMatched(s: State, e: Epoch)
    requires Matched(s, e)
    ensures Matched(Step(s, Watch), e)
  {
    var s' := Step(s, Watch);
    assert forall m :: m in s.submissions && Admits(s', m) ==> Admits(s, m);
    assert SubmittedNow(s, e) ==> SubmittedNow(s', e);
  }

  lemma TableMatched(s: State, c: D.Event, e: Epoch)
    requires Matched(s, e) && !c.Submit? && !c.Restart?
    ensures Matched(Step(s, Controller(c)), e)
  {
    var s' := Step(s, Controller(c));
    ControllerKeysNothing(s.ctl, c);
    assert forall m :: Admits(s', m) ==> Admits(s, m);
    assert SubmittedNow(s, e) ==> SubmittedNow(s', e);
  }

  lemma AcceptMatched(s: State, m: Submission, expected: set<D.Peer>, e: Epoch)
    requires Matched(s, e) && m in s.submissions && Admits(s, m)
    ensures Matched(Step(s, Accept(m, expected)), e)
  {
    var s' := Step(s, Accept(m, expected));
    SubmitKeysOne(s.ctl, m.epoch, m.pubkey, expected);
    assert forall n :: Admits(s', n) ==> Admits(s, n);
    assert SubmittedNow(s, e) ==> SubmittedNow(s', e);
    if e in s.directives && m.epoch == e {
      assert m.boot == s.boot;
      assert SubmittedNow(s', e);
    }
  }

  lemma DirectMatched(s: State, e: Epoch)
    requires Matched(s, e)
    ensures Matched(Step(s, Direct), e)
  {
    var s' := Step(s, Direct);
    assert forall m :: Admits(s', m) ==> Admits(s, m);
    assert SubmittedNow(s, e) ==> SubmittedNow(s', e);
  }

  /** The gateway holds this key, in whatever phase. */
  ghost predicate Had(g: K.State, k: K.EpochKey) {
    exists had :: HeldBy(g, had) && had.epoch == k.epoch && had.priv == k.priv
  }

  /** A step of the gateway alone that brings no key to the epoch. */
  lemma GatewayMatched(s: State, g: K.State, busy: Option<Epoch>, e: Epoch)
    requires Matched(s, e) && forall k :: HeldBy(g, k) && k.epoch == e ==> Had(s.gw, k)
    ensures Matched(s.(gw := g, busy := busy), e)
  {
    var s' := s.(gw := g, busy := busy);
    assert forall m :: Admits(s', m) ==> Admits(s, m);
    assert SubmittedNow(s, e) ==> SubmittedNow(s', e);
  }

  lemma EditMatched(s: State, ev: K.Event, saved: bool, busy: Option<Epoch>, e: Epoch)
    requires Matched(s, e) && !ev.Mint?
    ensures Matched(s.(gw := Saved(K.Step(s.gw, ev), saved), busy := busy), e)
  {
    var g := Saved(K.Step(s.gw, ev), saved);
    forall k | HeldBy(g, k) && k.epoch == e ensures Had(s.gw, k) {
      if k in K.Step(s.gw, ev).keys {
        GatewayInventsNothing(s.gw, ev, k);
      }
    }
    GatewayMatched(s, g, busy, e);
  }

  /** A saved mint puts the two sides right at its epoch, whatever was there. */
  lemma MintMatched(s: State, e: Epoch, newKey: K.Key)
    requires D.Sound(s.ctl) && SessionCurrent(s)
    requires e in s.directives && s.busy.None? && K.Minted(s.gw.keys, e, newKey).Some?
    requires e in s.ctl.rows ==> !T.Real(s.ctl.rows[e])
    requires forall m :: m in s.submissions && m.epoch == e && m.boot == s.boot ==> m.pubkey == PubOf(newKey)
    ensures Matched(Step(s, Deliver(e, newKey, true)), e)
  {
    var s' := Step(s, Deliver(e, newKey, true));
    forall k | HeldBy(s'.gw, k) && k.epoch == e ensures k.priv == newKey {
      MintHolds(s.gw, e, newKey, true, k);
    }
  }

  lemma MintElsewhereMatched(s: State, d: Epoch, newKey: K.Key, saved: bool, e: Epoch)
    requires Matched(s, e) && d in s.directives && (saved ==> d != e)
    ensures Matched(Step(s, Deliver(d, newKey, saved)), e)
  {
    var s' := Step(s, Deliver(d, newKey, saved));
    if s.busy.None? && K.Minted(s.gw.keys, d, newKey).Some? {
      forall k | HeldBy(s'.gw, k) && k.epoch == e ensures HeldBy(s.gw, k) {
        if saved || k in s'.gw.keys {
          MintHolds(s.gw, d, newKey, saved, k);
        }
      }
      assert forall m :: Admits(s', m) ==> Admits(s, m);
      if m :| m in s.submissions && m.epoch == e && m.boot == s.boot {
        assert m in s'.submissions;
      }
    }
  }

  lemma CrashMatched(s: State, e: Epoch)
    requires Matched(s, e)
    ensures Matched(Step(s, Crash), e)
  {
    var s' := Step(s, Crash);
    assert forall m :: Admits(s', m) ==> Admits(s, m);
    assert forall k :: HeldBy(s'.gw, k) ==> HeldBy(s.gw, k);
  }

  lemma StepMatched(s: State, ev: Event, e: Epoch)
    requires Matched(s, e) && Enabled(s, ev, OncePerProcess)
    ensures Matched(Step(s, ev), e)
  {
    match ev
    case Controller(c) => TableMatched(s, c, e);
    case Watch => WatchMatched(s, e);
    case Direct => DirectMatched(s, e);
    case Deliver(d, newKey, saved) =>
      if !saved || d != e {
        MintElsewhereMatched(s, d, newKey, saved, e);
      } else if s.busy.None? && K.Minted(s.gw.keys, e, newKey).Some? {
        MintMatched(s, e, newKey);
      }
    case Accept(m, expected) =>
      if Admits(s, m) {
        AcceptMatched(s, m, expected, e);
      }
    case Unwind(saved) => EditMatched(s, K.DiscardKey(s.busy.value), saved, None, e);
    case CutOver(saved) => EditMatched(s, K.PromoteKey(s.busy.value), saved, s.busy, e);
    case RetireOld(d, saved) => EditMatched(s, K.RetireKey(d), saved, None, e);
    case Crash => CrashMatched(s, e);
  }

  lemma {:induction false} RunMatched(s: State, events: seq<Event>, e: Epoch)
    requires Matched(s, e) && ValidFrom(s, events, OncePerProcess)
    ensures Matched(RunFrom(s, events), e)
    decreases |events|
  {
    if events == [] {
    } else {
      StepMatched(s, events[0], e);
      RunMatched(Step(s, events[0]), events[1..], e);
    }
  }

  lemma InitialMatched(legacy: K.Key, e: Epoch)
    ensures Matched(Initial(legacy), e)
  {
    D.RunIsSound(PubOf(legacy), []);
  }

  /** What the session check buys: while the controller stays up and no gateway
      process mints twice at one epoch, the key the controller has for an epoch is
      the one the gateway holds for it, throughout every run, with gateway crashes,
      aborts, re-issued numbers and late keys of earlier processes. */
  lemma AcceptedIsHeld(legacy: K.Key, events: seq<Event>)
    requires ValidFrom(Initial(legacy), events, OncePerProcess)
    ensures KeysAgree(RunFrom(Initial(legacy), events))
  {
    forall e ensures AgreeAt(RunFrom(Initial(legacy), events), e) {
      InitialMatched(legacy, e);
      RunMatched(Initial(legacy), events, e);
    }
  }

  /** A key that is accepted stays on file for that step. */
  lemma AcceptedOnFile(s: State, m: Submission)
    requires D.Sound(s.ctl) && Admits(s, m) && T.CanSet(s.ctl.rows, m.epoch) && m.pubkey != T.SENTINEL
    ensures var rows := Step(s, Accept(m, {})).ctl.rows; m.epoch in rows && rows[m.epoch].pubkey == m.pubkey
  {
    DrivenEffect(s.ctl, D.Submit(m.epoch, m.pubkey, {}));
  }

  /** A different key for an epoch the gateway holds pending arrives and is taken. */
  lemma OtherKeyTaken(t: State, m: Submission, newKey: K.Key)
    requires D.Sound(t.ctl) && Admits(t, m) && T.CanSet(t.ctl.rows, m.epoch)
    requires m.pubkey != T.SENTINEL && m.pubkey != PubOf(newKey)
    requires K.EpochKey(m.epoch, newKey, K.Pending) in t.gw.keys
    ensures !AgreeAt(Step(t, Accept(m, {})), m.epoch)
  {
    AcceptedOnFile(t, m);
    assert HeldBy(Step(t, Accept(m, {})).gw, K.EpochKey(m.epoch, newKey, K.Pending));
  }

  lemma MintedIsHeld(s: State, e: Epoch, newKey: K.Key)
    requires s.busy.None? && K.Minted(s.gw.keys, e, newKey).Some?
    ensures K.EpochKey(e, newKey, K.Pending) in Step(s, Deliver(e, newKey, true)).gw.keys
  {
    var keys := Step(s, Deliver(e, newKey, true)).gw.keys;
    assert keys[|keys| - 1] == K.EpochKey(e, newKey, K.Pending);
  }

  /** The gateway can act on a directive for an epoch the controller awaits. */
  ghost predicate MintsNow(s: State, e: Epoch, newKey: K.Key) {
    e in s.directives && T.CanSet(s.ctl.rows, e) && s.busy.None? && K.Minted(s.gw.keys, e, newKey).Some?
  }

  /** Exact, with the check in force: after the gateway mints at an awaited epoch the
      two sides agree on that epoch through every such run iff this process sent no
      other key for it. */
  lemma MintAgreesIff(s: State, e: Epoch, newKey: K.Key)
    requires D.Sound(s.ctl) && SessionCurrent(s) && (forall m :: m in s.submissions ==> m.pubkey != T.SENTINEL)
    requires MintsNow(s, e, newKey)
    ensures var t := Step(s, Deliver(e, newKey, true));
            (forall events :: ValidFrom(t, events, OncePerProcess) ==> AgreeAt(RunFrom(t, events), e))
            <==> (forall m :: m in s.submissions && m.epoch == e && m.boot == s.boot ==> m.pubkey == PubOf(newKey))
  {
    var t := Step(s, Deliver(e, newKey, true));
    if m :| m in s.submissions && m.epoch == e && m.boot == s.boot && m.pubkey != PubOf(newKey) {
      MintedIsHeld(s, e, newKey);
      OtherKeyTaken(t, m, newKey);
      One(t, Accept(m, {}), OncePerProcess);
    } else {
      MintMatched(s, e, newKey);
      forall events | ValidFrom(t, events, OncePerProcess) ensures AgreeAt(RunFrom(t, events), e) {
        RunMatched(t, events, e);
      }
    }
  }

  // ---- and when the controller has forgotten the session -----------------

  predicate InFlight(s: State, e: Epoch, pubkey: string) {
    exists m :: m in s.submissions && m.epoch == e && m.pubkey == pubkey
  }

  /** Every key for the epoch, on either side, went out in a submission. */
  ghost predicate AllSubmitted(s: State, e: Epoch) {
    && D.Sound(s.ctl)
    && (forall k :: HeldBy(s.gw, k) && k.epoch == e ==> InFlight(s, e, PubOf(k.priv)))
    && (e in s.ctl.rows && T.Real(s.ctl.rows[e]) ==> InFlight(s, e, s.ctl.rows[e].pubkey))
  }

  /** The epoch does not have two different keys under way. */
  predicate OneKey(s: State, e: Epoch) {
    forall m, n :: m in s.submissions && n in s.submissions && m.epoch == n.epoch == e ==> m.pubkey == n.pubkey
  }

  lemma MoreInFlight(s: State, s': State, e: Epoch)
    requires s.submissions <= s'.submissions
    ensures forall pubkey :: InFlight(s, e, pubkey) ==> InFlight(s', e, pubkey)
  {
  }

  lemma GatewaySubmitted(s: State, ev: K.Event, saved: bool, e: Epoch)
    requires AllSubmitted(s, e) && !ev.Mint?
    ensures forall k :: HeldBy(Saved(K.Step(s.gw, ev), saved), k) && k.epoch == e ==> InFlight(s, e, PubOf(k.priv))
  {
    forall k | HeldBy(Saved(K.Step(s.gw, ev), saved), k) && k.epoch == e ensures InFlight(s, e, PubOf(k.priv)) {
      if k in K.Step(s.gw, ev).keys {
        GatewayInventsNothing(s.gw, ev, k);
      }
    }
  }

  lemma MintSubmitted(s: State, d: Epoch, newKey: K.Key, saved: bool, e: Epoch)
    requires AllSubmitted(s, e)
    ensures AllSubmitted(Step(s, Deliver(d, newKey, saved)), e)
  {
    var s' := Step(s, Deliver(d, newKey, saved));
    MoreInFlight(s, s', e);
    if s.busy.None? && K.Minted(s.gw.keys, d, newKey).Some? {
      assert saved ==> Submission(d, PubOf(newKey), s.boot) in s'.submissions;
      forall k | HeldBy(s'.gw, k) && k.epoch == e ensures InFlight(s', e, PubOf(k.priv)) {
        if saved || k in s'.gw.keys {
          MintHolds(s.gw, d, newKey, saved, k);
        }
        assert d != e || !saved ==> HeldBy(s.gw, k);
      }
    }
  }

  lemma AcceptSubmitted(s: State, m: Submission, expected: set<D.Peer>, e: Epoch)
    requires AllSubmitted(s, e) && m in s.submissions
    ensures AllSubmitted(Step(s, Accept(m, expected)), e)
  {
    MoreInFlight(s, Step(s, Accept(m, expected)), e);
    SubmitKeysOne(s.ctl, m.epoch, m.pubkey, expected);
    assert InFlight(s, m.epoch, m.pubkey);
  }

  lemma SubmittedStep(s: State, ev: Event, e: Epoch)
    requires AllSubmitted(s, e) && OneKey(s, e) && Enabled(s, ev, OnceEver)
    ensures AllSubmitted(Step(s, ev), e) && OneKey(Step(s, ev), e)
  {
    MoreInFlight(s, Step(s, ev), e);
    match ev
    case Controller(c) => ControllerKeysNothing(s.ctl, c);
    case Accept(m, expected) => AcceptSubmitted(s, m, expected, e);
    case Watch =>
    case Direct =>
    case Deliver(d, newKey, saved) =>
      MintSubmitted(s, d, newKey, saved, e);
      assert forall m :: m in s.submissions ==> m.epoch != d;
    case Unwind(saved) => GatewaySubmitted(s, K.DiscardKey(s.busy.value), saved, e);
    case CutOver(saved) => GatewaySubmitted(s, K.PromoteKey(s.busy.value), saved, e);
    case RetireOld(d, saved) => GatewaySubmitted(s, K.RetireKey(d), saved, e);
    case Crash => GatewaySubmitted(s, K.Crash, false, e);
  }

  lemma {:induction false} OnceKeepsAgreement(s: State, events: seq<Event>, e: Epoch)
    requires AllSubmitted(s, e) && OneKey(s, e) && ValidFrom(s, events, OnceEver)
    ensures AgreeAt(RunFrom(s, events), e)
    decreases |events|
  {
    if events == [] {
    } else {
      SubmittedStep(s, events[0], e);
      OnceKeepsAgreement(Step(s, events[0]), events[1..], e);
    }
  }

  /** If no number is ever minted at twice, the two sides agree through controller
      restarts as well. */
  lemma AcceptedIsHeldThroughRestarts(legacy: K.Key, events: seq<Event>)
    requires ValidFrom(Initial(legacy), events, OnceEver)
    ensures KeysAgree(RunFrom(Initial(legacy), events))
  {
    var s := Initial(legacy);
    D.RunIsSound(PubOf(legacy), []);
    assert Submission(0, PubOf(legacy), 0) in s.submissions;
    forall e ensures AgreeAt(RunFrom(s, events), e) {
      assert AllSubmitted(s, e) && OneKey(s, e);
      OnceKeepsAgreement(s, events, e);
    }
  }

  /** A controller that has just restarted takes the key of an earlier process, and
      advertises one the gateway does not hold. */
  lemma RestartOpensTheCheck(s: State, m: Submission, newKey: K.Key)
    requires D.Sound(s.ctl) && m in s.submissions && m.pubkey != PubOf(newKey) && m.pubkey != T.SENTINEL
    requires MintsNow(s, m.epoch, newKey)
    ensures var t := Step(s, Deliver(m.epoch, newKey, true));
            var events := [Controller(D.Restart), Accept(m, {})];
            && Enabled(s, Deliver(m.epoch, newKey, true), Alone)
            && (forall rule :: rule != OncePerProcess ==> ValidFrom(t, events, rule))
            && !AgreeAt(RunFrom(t, events), m.epoch)
  {
    var t := Step(s, Deliver(m.epoch, newKey, true));
    MintedIsHeld(s, m.epoch, newKey);
    D.StepIsSound(t.ctl, D.Restart);
    var r := Step(t, Controller(D.Restart));
    OtherKeyTaken(r, m, newKey);
    assert [Controller(D.Restart), Accept(m, {})][1..] == [Accept(m, {})];
    forall rule | rule != OncePerProcess
      ensures ValidFrom(t, [Controller(D.Restart), Accept(m, {})], rule)
    {
      One(r, Accept(m, {}), rule);
    }
    One(r, Accept(m, {}), Alone);
  }

  /** From enrollment to a second directive for epoch one: the first process mints,
      sends its key and dies before it is taken. */
  function Reissue(k1: K.Key): seq<Event> {
    [Watch, Controller(D.Begin), Direct, Deliver(1, k1, true), Crash, Watch, Direct]
  }

  lemma MintsAndDies(legacy: K.Key, k1: K.Key) returns (t: State)
    ensures Leads(Initial(legacy), [Watch, Controller(D.Begin), Direct, Deliver(1, k1, true), Crash], t)
    ensures DirectiveFor(t.ctl.rows) == Some(1) && t.busy.None? && t.boot == 1
    ensures Submission(1, PubOf(k1), 0) in t.submissions
  {
    var s, events := Initial(legacy), [Watch, Controller(D.Begin), Direct];
    t := BegunAndDirected(legacy);
    events, t := Extend(s, events, t, Deliver(1, k1, true));
    events, t := Extend(s, events, t, Crash);
    assert events == [Watch, Controller(D.Begin), Direct, Deliver(1, k1, true), Crash];
  }

  lemma Reissued(legacy: K.Key, k1: K.Key, k2: K.Key) returns (t: State)
    ensures Leads(Initial(legacy), Reissue(k1), t) && D.Sound(t.ctl)
    ensures MintsNow(t, 1, k2) && Submission(1, PubOf(k1), 0) in t.submissions && t.boot == 1
  {
    var s, events := Initial(legacy), [Watch, Controller(D.Begin), Direct, Deliver(1, k1, true), Crash];
    t := MintsAndDies(legacy, k1);
    events, t := Extend(s, events, t, Watch);
    events, t := Extend(s, events, t, Direct);
    assert events == Reissue(k1);
    InitialIsSound(legacy);
    RunIsSound(s, events);
    SoundNeverRefuses(t);
  }

  /** The whole run, from enrollment: the second process mints another key, the
      controller restarts, and the dead process's key is taken. Only the restart
      breaks the rules of `AcceptedIsHeld`. */
  lemma StaleKeyAccepted(legacy: K.Key, k1: K.Key, k2: K.Key)
    requires k1 != k2
    ensures var events := Reissue(k1) + [Deliver(1, k2, true), Controller(D.Restart),
                                         Accept(Submission(1, PubOf(k1), 0), {})];
            ValidFrom(Initial(legacy), events, Alone) && !KeysAgree(RunFrom(Initial(legacy), events))
  {
    var m := Submission(1, PubOf(k1), 0);
    if PubOf(k1) == PubOf(k2) {
      PubOfIsInjective(k1, k2);
      assert false;
    }
    var t := Reissued(legacy, k1, k2);
    RestartOpensTheCheck(t, m, k2);
    var rest := [Deliver(1, k2, true), Controller(D.Restart), Accept(m, {})];
    assert rest[1..] == [Controller(D.Restart), Accept(m, {})];
    RunFromThen(Initial(legacy), Reissue(k1), rest);
  }

  /** Exact, restarts of the controller included: after a mint at an awaited epoch
      the two sides agree on that epoch through every run that mints nowhere twice
      iff no process ever sent another key for it. */
  lemma MintAgreesThroughRestartsIff(s: State, e: Epoch, newKey: K.Key)
    requires D.Sound(s.ctl) && (forall m :: m in s.submissions ==> m.pubkey != T.SENTINEL)
    requires MintsNow(s, e, newKey)
    ensures var t := Step(s, Deliver(e, newKey, true));
            (forall events :: ValidFrom(t, events, OnceEver) ==> AgreeAt(RunFrom(t, events), e))
            <==> (forall m :: m in s.submissions && m.epoch == e ==> m.pubkey == PubOf(newKey))
  {
    var t := Step(s, Deliver(e, newKey, true));
    if m :| m in s.submissions && m.epoch == e && m.pubkey != PubOf(newKey) {
      RestartOpensTheCheck(s, m, newKey);
    } else {
      assert Submission(e, PubOf(newKey), s.boot) in t.submissions;
      forall k | HeldBy(t.gw, k) && k.epoch == e ensures InFlight(t, e, PubOf(k.priv)) {
        MintHolds(s.gw, e, newKey, true, k);
      }
      forall events | ValidFrom(t, events, OnceEver) ensures AgreeAt(RunFrom(t, events), e) {
        OnceKeepsAgreement(t, events, e);
      }
    }
  }
}
