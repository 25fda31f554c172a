/** One gateway's key rotation on the controller: the decision function, the
    in-memory tracker it works from, and the driver and sweep that carry its
    decisions out against the epoch table. */
module RotationDriver {
  import opened Outcomes
  import opened EpochTable

  const GRACE_PROMOTE: nat := 90
  const RETIRE_GRACE: nat := 30
  const ABORT_AFTER: nat := 300

  type Peer = nat

  // ---- the decision -----------------------------------------------------

  datatype Decision =
    | Wait
    | PromoteEpoch(epoch: Epoch)
    | RetireEpoch(epoch: Epoch)
    | Finished
    | Abort(epoch: Epoch)

  datatype Tracker = Tracker(
    pending: Epoch, prior: Option<Epoch>, startedAt: nat, promotedAt: Option<nat>, acks: set<Peer>)

  function Since(now: nat, t: nat): nat {
    if now < t then 0 else now - t
  }

  function Decide(t: Tracker, hasRealKey: bool, expected: set<Peer>, now: nat): Decision {
    if t.promotedAt.Some? then
      if t.prior.None? then Finished
      else if Since(now, t.promotedAt.value) >= RETIRE_GRACE then RetireEpoch(t.prior.value)
      else Wait
    else if !hasRealKey then
      if Since(now, t.startedAt) >= ABORT_AFTER then Abort(t.pending) else Wait
    else if expected != {} && expected <= t.acks then PromoteEpoch(t.pending)
    else if Since(now, t.startedAt) >= GRACE_PROMOTE then PromoteEpoch(t.pending)
    else Wait
  }

  // ---- driving it -------------------------------------------------------

  /** `demoted` records when each retiring row was demoted; `lost` the retiring
      rows whose tracker a controller restart has thrown away. */
  datatype State = State(
    now: nat, rows: Rows, tracker: Option<Tracker>, demoted: map<Epoch, nat>, lost: set<Epoch>)

  function InState(rows: Rows, st: KeyState): set<Epoch> {
    set e | e in rows && rows[e].state == st
  }

  /** The newest pending row is the live rotation. */
  ghost function LivePending(rows: Rows): Option<Epoch> {
    var p := InState(rows, Pending);
    if p == {} then None else Some(NextEpoch(p) - 1)
  }

  ghost function PriorActive(rows: Rows): Option<Epoch> {
    var a := InState(rows, Active);
    if a == {} then None else (var e :| e in a; Some(e))
  }

  ghost function Seeded(s: State): State {
    var live := LivePending(s.rows);
    if live.None? || (s.tracker.Some? && s.tracker.value.pending == live.value) then s
    else s.(tracker := Some(Tracker(live.value, PriorActive(s.rows), s.now, None, {})))
  }

  predicate HasRealKey(rows: Rows, e: Epoch) {
    CanPromote(rows, e)
  }

  function Stamp(demoted: map<Epoch, nat>, rows: Rows, now: nat): map<Epoch, nat> {
    map e | e in demoted.Keys + InState(rows, Active) ::
      if e in InState(rows, Active) then now else demoted[e]
  }

  function Execute(s: State, d: Decision): State
    requires s.tracker.Some?
  {
    match d
    case Wait => s
    case Finished => s.(tracker := None)
    case PromoteEpoch(e) =>
      if CanPromote(s.rows, e) then
        s.(rows := Promoted(s.rows, e), demoted := Stamp(s.demoted, s.rows, s.now),
           tracker := Some(s.tracker.value.(promotedAt := Some(s.now))))
      else s
    case RetireEpoch(e) =>
      if CanRetire(s.rows, e) then s.(rows := s.rows - {e}, tracker := None) else s
    case Abort(e) =>
      if CanDrop(s.rows, e) then s.(rows := s.rows - {e}, tracker := None)
      else if e !in s.rows then s.(tracker := None)
      else s
  }

  ghost function Drive(s: State, expected: set<Peer>): State {
    var s1 := Seeded(s);
    if s1.tracker.None? then s1
    else
      var t := s1.tracker.value;
      Execute(s1, Decide(t, HasRealKey(s1.rows, t.pending), expected, s1.now))
  }

  predicate Settled(rows: Rows) {
    InState(rows, Pending) == {} && InState(rows, Retiring) == {}
  }

  /** One sweep over the gateway: drive it, then delete the retiring rows no
      tracker speaks for. */
  ghost function Sweep(s: State, expected: set<Peer>): State {
    if Settled(s.rows) then s
    else
      var s1 := Drive(s, expected);
      if s1.tracker.Some? then s1 else s1.(rows := s1.rows - InState(s1.rows, Retiring))
  }

  datatype Event =
    | Tick(delta: nat)
    | Begin
    | Submit(e: Epoch, pubkey: string, expected: set<Peer>)
    | Ack(e: Epoch, peer: Peer, expected: set<Peer>)
    | SweepTick(expected: set<Peer>)
    | Restart

  /** An acknowledgement counts only for the epoch being tracked. */
  function Acked(s: State, e: Epoch, peer: Peer): State {
    if s.tracker.Some? && s.tracker.value.pending == e
    then s.(tracker := Some(s.tracker.value.(acks := s.tracker.value.acks + {peer}))) else s
  }

  ghost function Step(s: State, ev: Event): State {
    match ev
    case Tick(delta) => s.(now := s.now + delta)
    case Begin => s.(rows := Rotated(s.rows))
    case Submit(e, pubkey, expected) =>
      if CanSet(s.rows, e) then Drive(s.(rows := Filled(s.rows, e, pubkey)), expected) else s
    case Ack(e, peer, expected) =>
      Drive(Acked(s, e, peer), expected)
    case SweepTick(expected) => Sweep(s, expected)
    case Restart => s.(tracker := None, lost := InState(s.rows, Retiring))
  }

  ghost function Initial(pubkey: string): State {
    State(0, map[0 := Row(pubkey, Active)], None, map[], {})
  }

  ghost function Run(pubkey: string, events: seq<Event>): State {
    if events == [] then Initial(pubkey) else Step(Run(pubkey, events[..|events| - 1]), events[|events| - 1])
  }

  // ---- the invariant ----------------------------------------------------

  /** Every retiring row was demoted by `t`. */
  predicate DemotedBy(s: State, t: nat) {
    forall e :: e in InState(s.rows, Retiring) ==> e in s.demoted && s.demoted[e] <= t
  }

  /** Past its grace, or orphaned by a restart. */
  predicate MayGo(s: State, e: Epoch) {
    e in s.lost || (e in s.demoted && s.demoted[e] + RETIRE_GRACE <= s.now)
  }

  predicate AllMayGo(s: State) {
    forall e :: e in InState(s.rows, Retiring) ==> MayGo(s, e)
  }

  ghost predicate TrackerSound(s: State, t: Tracker)
    requires OneActive(s.rows)
  {
    && t.startedAt <= s.now
    && match t.promotedAt
       case None =>
         && t.pending in InState(s.rows, Pending) && t.prior == Some(ActiveOf(s.rows))
         && DemotedBy(s, t.startedAt)
       case Some(at) =>
         && at <= s.now && t.pending == ActiveOf(s.rows)
         && t.prior.Some? && t.prior.value in InState(s.rows, Retiring)
         && DemotedBy(s, at)
  }

  ghost predicate Sound(s: State) {
    && OneActive(s.rows)
    && DemotedBy(s, s.now)
    && match s.tracker
       case Some(t) => TrackerSound(s, t)
       case None => AllMayGo(s)
  }

  lemma OnlyOneIsActive(rows: Rows)
    requires OneActive(rows)
    ensures InState(rows, Active) == {ActiveOf(rows)} && PriorActive(rows) == Some(ActiveOf(rows))
  {
    var a := ActiveOf(rows);
    assert InState(rows, Active) == {a};
  }

  lemma LiveIsNewest(rows: Rows)
    ensures LivePending(rows).None? <==> InState(rows, Pending) == {}
    ensures LivePending(rows).Some? ==>
              var p := LivePending(rows).value;
              p in InState(rows, Pending) && forall e :: e in InState(rows, Pending) ==> e <= p
  {
    var p := InState(rows, Pending);
    if p != {} {
      var e :| e in p;
      assert IsNext(p, NextEpoch(p));
    }
  }

  lemma SameActive(rows: Rows, rows': Rows)
    requires OneActive(rows) && ActiveOf(rows) in rows' && InState(rows', Active) == InState(rows, Active)
    requires rows'[ActiveOf(rows)].pubkey == rows[ActiveOf(rows)].pubkey
    ensures OneActive(rows') && ActiveOf(rows') == ActiveOf(rows)
  {
    var a := ActiveOf(rows);
    OnlyOneIsActive(rows);
    assert a in InState(rows', Active);
    forall e | e in rows' && rows'[e].state == Active ensures e == a {
      assert e in InState(rows', Active);
    }
    assert OnlyActive(rows', a);
  }

  lemma SeedIsSound(s: State)
    requires Sound(s)
    ensures Sound(Seeded(s))
  {
    LiveIsNewest(s.rows);
    OnlyOneIsActive(s.rows);
  }

  lemma PromoteStates(rows: Rows, e: Epoch)
    requires OneActive(rows) && CanPromote(rows, e)
    ensures InState(Promoted(rows, e), Active) == {e}
    ensures InState(Promoted(rows, e), Pending) == InState(rows, Pending) - {e}
    ensures InState(Promoted(rows, e), Retiring) == InState(rows, Retiring) + {ActiveOf(rows)}
    ensures OneActive(Promoted(rows, e)) && ActiveOf(Promoted(rows, e)) == e
  {
    PromoteMovesActive(rows, e);
    OnlyOneIsActive(rows);
    var rows' := Promoted(rows, e);
    OnlyOneIsActive(rows');
    forall k ensures k in InState(rows', Pending) <==> k in InState(rows, Pending) - {e} {
      assert k in rows' <==> k in rows;
    }
    forall k ensures k in InState(rows', Retiring) <==> k in InState(rows, Retiring) + {ActiveOf(rows)} {
      assert k in rows' && k != e ==> rows'[k] == Demoted(rows)[k];
    }
  }

  lemma RemoveStates(rows: Rows, gone: set<Epoch>, st: KeyState)
    requires OneActive(rows) && gone <= InState(rows, st) && st != Active
    ensures OneActive(rows - gone) && ActiveOf(rows - gone) == ActiveOf(rows)
    ensures forall k: KeyState :: InState(rows - gone, k) == InState(rows, k) - gone
  {
    assert forall k: KeyState :: InState(rows - gone, k) == InState(rows, k) - gone;
    OnlyOneIsActive(rows);
    var a := ActiveOf(rows);
    assert a !in gone;
    assert a in rows - gone;
    SameActive(rows, rows - gone);
  }

  lemma PromoteIsSound(s: State, e: Epoch)
    requires Sound(s) && s.tracker.Some? && s.tracker.value.promotedAt.None? && e == s.tracker.value.pending
    requires CanPromote(s.rows, e)
    ensures Sound(Execute(s, PromoteEpoch(e)))
  {
    PromoteStates(s.rows, e);
    OnlyOneIsActive(s.rows);
    var s' := Execute(s, PromoteEpoch(e));
    assert DemotedBy(s', s.now);
  }

  /** Whichever way a tracker goes, it leaves only retiring rows past their
      grace behind. */
  lemma DroppedTrackerIsSound(s: State, d: Decision)
    requires Sound(s) && s.tracker.Some?
    requires var t := s.tracker.value;
             || (&& d == RetireEpoch(t.prior.value) && t.promotedAt.Some? && t.prior.Some?
                 && s.now >= t.promotedAt.value + RETIRE_GRACE)
             || (d == Abort(t.pending) && t.promotedAt.None? && s.now >= t.startedAt + ABORT_AFTER)
    ensures Sound(Execute(s, d)) && Execute(s, d).tracker.None?
    ensures Execute(s, d).rows == s.rows - {d.epoch}
  {
    var st := if d.Abort? then Pending else Retiring;
    RemoveStates(s.rows, {d.epoch}, st);
  }

  lemma DriveIsSound(s: State, expected: set<Peer>)
    requires Sound(s)
    ensures Sound(Drive(s, expected))
  {
    SeedIsSound(s);
    var s1 := Seeded(s);
    if s1.tracker.Some? {
      var t := s1.tracker.value;
      var d := Decide(t, HasRealKey(s1.rows, t.pending), expected, s1.now);
      match d
      case Wait =>
      case PromoteEpoch(e) => PromoteIsSound(s1, e);
      case _ => DroppedTrackerIsSound(s1, d);
    }
  }

  lemma SweepIsSound(s: State, expected: set<Peer>)
    requires Sound(s)
    ensures Sound(Sweep(s, expected))
  {
    DriveIsSound(s, expected);
    var s1 := Drive(s, expected);
    RemoveStates(s1.rows, InState(s1.rows, Retiring), Retiring);
  }

  lemma BeginIsSound(s: State)
    requires Sound(s)
    ensures Sound(Step(s, Begin))
  {
    var n := NextEpoch(s.rows.Keys);
    var rows' := Rotated(s.rows);
    assert n !in s.rows;
    assert InState(rows', Pending) == InState(s.rows, Pending) + {n};
    assert InState(rows', Retiring) == InState(s.rows, Retiring);
    assert InState(rows', Active) == InState(s.rows, Active);
    OnlyOneIsActive(s.rows);
    SameActive(s.rows, rows');
  }

  lemma SubmitIsSound(s: State, e: Epoch, pubkey: string)
    requires Sound(s) && CanSet(s.rows, e)
    ensures Sound(s.(rows := Filled(s.rows, e, pubkey)))
  {
    var rows' := Filled(s.rows, e, pubkey);
    assert forall k: KeyState :: InState(rows', k) == InState(s.rows, k);
    OnlyOneIsActive(s.rows);
    SameActive(s.rows, rows');
  }

  lemma StepIsSound(s: State, ev: Event)
    requires Sound(s)
    ensures Sound(Step(s, ev))
  {
    match ev
    case Tick(_) =>
    case Begin => BeginIsSound(s);
    case Submit(e, pubkey, expected) =>
      if CanSet(s.rows, e) {
        SubmitIsSound(s, e, pubkey);
        DriveIsSound(s.(rows := Filled(s.rows, e, pubkey)), expected);
      }
    case Ack(e, peer, expected) =>
      DriveIsSound(Acked(s, e, peer), expected);
    case SweepTick(expected) => SweepIsSound(s, expected);
    case Restart =>
  }

  lemma {:induction false} RunIsSound(pubkey: string, events: seq<Event>)
    requires pubkey != SENTINEL
    ensures Sound(Run(pubkey, events))
  {
    if events == [] {
      var rows := Initial(pubkey).rows;
      assert 0 in rows && OnlyActive(rows, 0);
    } else {
      RunIsSound(pubkey, events[..|events| - 1]);
      StepIsSound(Run(pubkey, events[..|events| - 1]), events[|events| - 1]);
    }
  }

  // ---- what a step does to the table ------------------------------------

  /** Driving adds no row and changes no key; a row with a real key goes only when
      it is retiring; a row that becomes active was pending with a real key. */
  ghost predicate TableEffect(rows: Rows, rows': Rows) {
    && OneActive(rows) && OneActive(rows')
    && rows'.Keys <= rows.Keys && InState(rows', Pending) <= InState(rows, Pending)
    && (forall r :: r in rows' ==> rows'[r].pubkey == rows[r].pubkey)
    && (forall r :: r in rows && Real(rows[r]) && rows[r].state != Retiring ==> r in rows')
    && (forall r :: r in InState(rows, Pending) && r in rows' ==> r in InState(rows', Pending) || r == ActiveOf(rows'))
    && (ActiveOf(rows') != ActiveOf(rows) ==>
          ActiveOf(rows') in InState(rows, Pending) && Real(rows[ActiveOf(rows')]))
  }

  lemma DriveEffect(s: State, expected: set<Peer>)
    requires Sound(s)
    ensures TableEffect(s.rows, Drive(s, expected).rows)
    ensures Drive(s, expected).tracker.None? ==> ActiveOf(Drive(s, expected).rows) == ActiveOf(s.rows)
  {
    SeedIsSound(s);
    var s1 := Seeded(s);
    if s1.tracker.Some? {
      var t := s1.tracker.value;
      var d := Decide(t, HasRealKey(s1.rows, t.pending), expected, s1.now);
      match d
      case Wait =>
      case PromoteEpoch(e) => PromoteStates(s1.rows, e);
      case RetireEpoch(e) =>
        DroppedTrackerIsSound(s1, d);
        RemoveStates(s1.rows, {e}, Retiring);
      case Abort(e) =>
        DroppedTrackerIsSound(s1, d);
        RemoveStates(s1.rows, {e}, Pending);
      case Finished => assert false;
    }
  }

  lemma CleanEffect(rows: Rows, rows': Rows)
    requires TableEffect(rows, rows') && ActiveOf(rows') == ActiveOf(rows)
    ensures TableEffect(rows, rows' - InState(rows', Retiring))
  {
    var gone := InState(rows', Retiring);
    RemoveStates(rows', gone, Retiring);
    OnlyOneIsActive(rows);
    forall r | r in gone ensures rows[r].state == Retiring {
      assert rows[r].state == Pending ==> r in InState(rows, Pending);
    }
  }

  lemma SweepEffect(s: State, expected: set<Peer>)
    requires Sound(s)
    ensures TableEffect(s.rows, Sweep(s, expected).rows)
  {
    DriveEffect(s, expected);
    if !Settled(s.rows) && Drive(s, expected).tracker.None? {
      CleanEffect(s.rows, Drive(s, expected).rows);
    }
  }

  function Filled(rows: Rows, e: Epoch, pubkey: string): Rows
    requires e in rows
  {
    rows[e := rows[e].(pubkey := pubkey)]
  }

  lemma FilledStates(rows: Rows, e: Epoch, pubkey: string)
    requires OneActive(rows) && CanSet(rows, e)
    ensures forall k: KeyState :: InState(Filled(rows, e, pubkey), k) == InState(rows, k)
    ensures OneActive(Filled(rows, e, pubkey)) && ActiveOf(Filled(rows, e, pubkey)) == ActiveOf(rows)
  {
    assert forall k: KeyState :: InState(Filled(rows, e, pubkey), k) == InState(rows, k);
    OnlyOneIsActive(rows);
    SameActive(rows, Filled(rows, e, pubkey));
  }

  /** A key or an acknowledgement is recorded, then the rotation driven. */
  predicate Drives(s: State, ev: Event) {
    (ev.Submit? && CanSet(s.rows, ev.e)) || ev.Ack?
  }

  function Recorded(s: State, ev: Event): State
    requires Drives(s, ev)
  {
    if ev.Submit? then s.(rows := Filled(s.rows, ev.e, ev.pubkey)) else Acked(s, ev.e, ev.peer)
  }

  lemma RecordedIsSound(s: State, ev: Event)
    requires Sound(s) && Drives(s, ev)
    ensures var r := Recorded(s, ev);
            && Step(s, ev) == Drive(r, ev.expected) && Sound(r) && r.now == s.now
            && r.rows.Keys == s.rows.Keys && ActiveOf(r.rows) == ActiveOf(s.rows)
            && InState(r.rows, Pending) == InState(s.rows, Pending) && LivePending(r.rows) == LivePending(s.rows)
            && (r.tracker.Some? <==> s.tracker.Some?)
            && (s.tracker.Some? ==>
                  r.tracker.value == s.tracker.value.(acks := r.tracker.value.acks)
                  && (ev.Submit? ==> r.tracker == s.tracker))
  {
    if ev.Submit? {
      SubmitIsSound(s, ev.e, ev.pubkey);
      FilledStates(s.rows, ev.e, ev.pubkey);
    }
  }

  /** Until a rotation begins, rows only go, pending ones only end, and time only
      passes. */
  lemma StepShrinks(s: State, ev: Event)
    requires Sound(s) && !ev.Begin?
    ensures var s' := Step(s, ev);
            && s'.rows.Keys <= s.rows.Keys && InState(s'.rows, Pending) <= InState(s.rows, Pending)
            && s'.now >= s.now
  {
    if Drives(s, ev) {
      RecordedIsSound(s, ev);
      DriveEffect(Recorded(s, ev), ev.expected);
      DriveClock(Recorded(s, ev), ev.expected);
    } else if ev.SweepTick? {
      SweepEffect(s, ev.expected);
      DriveClock(s, ev.expected);
    }
  }

  lemma DriveClock(s: State, expected: set<Peer>)
    ensures Drive(s, expected).now == s.now && Sweep(s, expected).now == s.now
  {
  }

  // ---- the retire grace never collapses ---------------------------------

  lemma DriveDeletesRipe(s: State, expected: set<Peer>, e: Epoch)
    requires Sound(s) && e in InState(s.rows, Retiring) && e !in Drive(s, expected).rows
    ensures MayGo(s, e)
  {
    SeedIsSound(s);
    var s1 := Seeded(s);
    var t := s1.tracker.value;
    var d := Decide(t, HasRealKey(s1.rows, t.pending), expected, s1.now);
    assert d.RetireEpoch?;
    assert DemotedBy(s1, t.promotedAt.value);
  }

  /** However rotations stack up: an old key is deleted no earlier than a full
      grace after it was demoted, unless the controller restarted since. */
  lemma OldKeyKeepsItsGrace(pubkey: string, events: seq<Event>, ev: Event, e: Epoch)
    requires pubkey != SENTINEL
    requires e in InState(Run(pubkey, events).rows, Retiring)
    requires e !in Step(Run(pubkey, events), ev).rows
    ensures MayGo(Run(pubkey, events), e)
  {
    RunIsSound(pubkey, events);
    var s := Run(pubkey, events);
    match ev
    case Tick(_) => assert false;
    case Begin => assert false;
    case Submit(f, key, expected) =>
      SubmitIsSound(s, f, key);
      var s1 := s.(rows := Filled(s.rows, f, key));
      assert e in InState(s1.rows, Retiring);
      DriveDeletesRipe(s1, expected, e);
    case Ack(f, peer, expected) =>
      var s1 := Acked(s, f, peer);
      assert Sound(s1);
      DriveDeletesRipe(s1, expected, e);
    case SweepTick(expected) => SweepDeletesRipe(s, expected, e);
    case Restart => assert false;
  }

  lemma DriveKeepsHistory(s: State, expected: set<Peer>, e: Epoch)
    requires Sound(s) && e in InState(s.rows, Retiring)
    ensures var s' := Drive(s, expected);
            s'.now == s.now && s'.lost == s.lost && e in s.demoted && e in s'.demoted && s'.demoted[e] == s.demoted[e]
  {
    SeedIsSound(s);
  }

  lemma SweepDeletesRipe(s: State, expected: set<Peer>, e: Epoch)
    requires Sound(s) && e in InState(s.rows, Retiring) && e !in Sweep(s, expected).rows
    ensures MayGo(s, e)
  {
    var s1 := Drive(s, expected);
    if e !in s1.rows {
      DriveDeletesRipe(s, expected, e);
    } else {
      DriveIsSound(s, expected);
      DriveKeepsHistory(s, expected, e);
      assert e in InState(s1.rows, Retiring);
      assert MayGo(s1, e);
    }
  }

  // ---- what a driver tick does to an unpromoted rotation ----------------

  /** A rotation whose key never came is dropped by a tick at or after the abort
      deadline, and untouched by one before. */
  lemma SentinelAbortsExactly(s: State, expected: set<Peer>)
    requires Sound(s) && s.tracker.Some? && s.tracker.value.promotedAt.None?
    requires LivePending(s.rows) == Some(s.tracker.value.pending)
    requires !Real(s.rows[s.tracker.value.pending])
    ensures var t := s.tracker.value;
            var s' := Drive(s, expected);
            if s.now >= t.startedAt + ABORT_AFTER then s'.rows == s.rows - {t.pending} && s'.tracker.None?
            else s' == s
  {
    if s.now >= s.tracker.value.startedAt + ABORT_AFTER {
      DroppedTrackerIsSound(s, Abort(s.tracker.value.pending));
    }
  }

  /** One whose key has come is promoted exactly when every connected peer has
      acknowledged it or the promote grace is over, and is never dropped. */
  lemma KeyedPromotesExactly(s: State, expected: set<Peer>)
    requires Sound(s) && s.tracker.Some? && s.tracker.value.promotedAt.None?
    requires LivePending(s.rows) == Some(s.tracker.value.pending)
    requires Real(s.rows[s.tracker.value.pending])
    ensures var t := s.tracker.value;
            var s' := Drive(s, expected);
            if (expected != {} && expected <= t.acks) || s.now >= t.startedAt + GRACE_PROMOTE
            then s'.rows == Promoted(s.rows, t.pending) && s'.tracker == Some(t.(promotedAt := Some(s.now)))
            else s' == s
  {
  }

  /** The live rotation is `p`, and its tracker has been running since `t0`. */
  ghost predicate Tracking(s: State, p: Epoch, t0: nat) {
    && s.tracker.Some? && s.tracker.value.pending == p && s.tracker.value.promotedAt.None?
    && s.tracker.value.startedAt == t0 && LivePending(s.rows) == Some(p)
  }

  /** The tick that takes up a rotation only starts its clock. */
  lemma SeedTracks(s: State, p: Epoch, expected: set<Peer>)
    requires Sound(s) && LivePending(s.rows) == Some(p)
    requires s.tracker.None? || s.tracker.value.pending != p
    ensures Drive(s, expected) == Seeded(s) && Tracking(Drive(s, expected), p, s.now)
  {
    SeedIsSound(s);
    LiveIsNewest(s.rows);
  }

  /** With a pending row on file, a tick either leaves the table alone or moves
      the newest pending row on; past the abort deadline it always does. */
  lemma DriveOnce(s: State, expected: set<Peer>)
    requires Sound(s) && InState(s.rows, Pending) != {}
    ensures Seeded(s).tracker.Some?
    ensures var t := Seeded(s).tracker.value;
            var s' := Drive(s, expected);
            && t.promotedAt.None? && t.pending in InState(s.rows, Pending) && t.startedAt <= s.now
            && LivePending(s.rows) == Some(t.pending)
            && (|| s' == Seeded(s)
                || InState(s'.rows, Pending) == InState(s.rows, Pending) - {t.pending})
            && (s.now >= t.startedAt + ABORT_AFTER ==> s' != Seeded(s))
  {
    LiveIsNewest(s.rows);
    SeedIsSound(s);
    OnlyOneIsActive(s.rows);
    var s1 := Seeded(s);
    var t := s1.tracker.value;
    if Real(s1.rows[t.pending]) {
      KeyedPromotesExactly(s1, expected);
      PromoteStates(s1.rows, t.pending);
    } else {
      SentinelAbortsExactly(s1, expected);
      RemoveStates(s1.rows, {t.pending}, Pending);
    }
  }

  lemma DriveWithoutPending(s: State, expected: set<Peer>)
    requires Sound(s) && InState(s.rows, Pending) == {}
    ensures InState(Drive(s, expected).rows, Pending) == {}
    ensures s.tracker.None? ==> Drive(s, expected) == s
    ensures s.tracker.Some? ==>
              && s.tracker.value.promotedAt.Some?
              && if s.now >= s.tracker.value.promotedAt.value + RETIRE_GRACE then Drive(s, expected).tracker.None?
                 else Drive(s, expected) == s
  {
    LiveIsNewest(s.rows);
    if s.tracker.Some? {
      var t := s.tracker.value;
      assert t.promotedAt.Some?;
      if s.now >= t.promotedAt.value + RETIRE_GRACE {
        DroppedTrackerIsSound(s, RetireEpoch(t.prior.value));
        RemoveStates(s.rows, {t.prior.value}, Retiring);
      }
    }
  }

  lemma SweepPendings(s: State, expected: set<Peer>)
    requires Sound(s)
    ensures InState(Sweep(s, expected).rows, Pending) ==
            if Settled(s.rows) then {} else InState(Drive(s, expected).rows, Pending)
    ensures !Settled(s.rows) ==> Sweep(s, expected).tracker == Drive(s, expected).tracker
    ensures !Settled(s.rows) && Drive(s, expected).tracker.None? ==> InState(Sweep(s, expected).rows, Retiring) == {}
    ensures !Settled(s.rows) && Drive(s, expected).tracker.Some? ==> Sweep(s, expected) == Drive(s, expected)
  {
    DriveIsSound(s, expected);
    var s1 := Drive(s, expected);
    RemoveStates(s1.rows, InState(s1.rows, Retiring), Retiring);
  }

  // ---- runs from any state ----------------------------------------------

  ghost function RunFrom(s: State, events: seq<Event>): State
    decreases |events|
  {
    if events == [] then s else RunFrom(Step(s, events[0]), events[1..])
  }

  lemma {:induction false} RunFromThen(s: State, a: seq<Event>, b: seq<Event>)
    ensures RunFrom(s, a + b) == RunFrom(RunFrom(s, a), b)
    decreases |a|
  {
    if a == [] {
      assert a + b == b;
    } else {
      assert (a + b)[0] == a[0] && (a + b)[1..] == a[1..] + b;
      RunFromThen(Step(s, a[0]), a[1..], b);
    }
  }

  lemma {:induction false} RunContinues(pubkey: string, before: seq<Event>, events: seq<Event>)
    ensures RunFrom(Run(pubkey, before), events) == Run(pubkey, before + events)
    decreases |events|
  {
    if events == [] {
      assert before + events == before;
    } else {
      Then(pubkey, before, events[0]);
      assert before + events == (before + [events[0]]) + events[1..];
      RunContinues(pubkey, before + [events[0]], events[1..]);
    }
  }

  lemma Then(pubkey: string, events: seq<Event>, ev: Event)
    ensures Run(pubkey, events + [ev]) == Step(Run(pubkey, events), ev)
  {
    assert (events + [ev])[..|events + [ev]| - 1] == events;
  }

  predicate NoneBegins(events: seq<Event>) {
    forall i :: 0 <= i < |events| ==> !events[i].Begin?
  }

  lemma Tail(events: seq<Event>)
    requires events != [] && NoneBegins(events)
    ensures NoneBegins(events[1..]) && !events[0].Begin?
  {
    assert forall i :: 0 <= i < |events[1..]| ==> events[1..][i] == events[i + 1];
  }

  // ---- the deadlines, over whole runs -----------------------------------

  predicate Undisturbed(events: seq<Event>) {
    forall i :: 0 <= i < |events| ==> !events[i].Begin? && !events[i].Restart?
  }

  predicate NoKeyFor(events: seq<Event>, p: Epoch) {
    forall i :: 0 <= i < |events| && events[i].Submit? && events[i].e == p ==> events[i].pubkey == SENTINEL
  }

  lemma SentinelDrive(s: State, expected: set<Peer>, p: Epoch, t0: nat)
    requires Sound(s) && Tracking(s, p, t0) && p in s.rows && !Real(s.rows[p])
    ensures var s' := Drive(s, expected);
            if s.now < t0 + ABORT_AFTER then s' == s else p !in s'.rows
  {
    SentinelAbortsExactly(s, expected);
  }

  /** One event in the life of a rotation that has no key. */
  lemma SentinelStep(s: State, ev: Event, p: Epoch, t0: nat)
    requires Sound(s) && Tracking(s, p, t0) && p in s.rows && !Real(s.rows[p])
    requires !ev.Begin? && !ev.Restart? && (ev.Submit? && ev.e == p ==> ev.pubkey == SENTINEL)
    ensures var s' := Step(s, ev);
            || (&& Tracking(s', p, t0) && p in s'.rows && !Real(s'.rows[p])
                && (s.now >= t0 + ABORT_AFTER ==> !ev.SweepTick?))
            || (s.now >= t0 + ABORT_AFTER && p !in s'.rows)
  {
    LiveIsNewest(s.rows);
    if Drives(s, ev) {
      RecordedIsSound(s, ev);
      SentinelDrive(Recorded(s, ev), ev.expected, p, t0);
    } else if ev.SweepTick? {
      SweepPendings(s, ev.expected);
      SentinelDrive(s, ev.expected, p, t0);
    }
  }

  lemma {:induction false} SentinelThrough(s: State, events: seq<Event>, p: Epoch, t0: nat)
    requires Sound(s) && Tracking(s, p, t0) && p in s.rows && !Real(s.rows[p])
    requires Undisturbed(events) && NoKeyFor(events, p)
    ensures var f := RunFrom(s, events);
            && Sound(f)
            && (|| (Tracking(f, p, t0) && p in f.rows && !Real(f.rows[p]))
                || (f.now >= t0 + ABORT_AFTER && p !in f.rows))
    decreases |events|
  {
    if events == [] {
    } else {
      var s1, rest := Step(s, events[0]), events[1..];
      assert forall i :: 0 <= i < |rest| ==> rest[i] == events[i + 1];
      StepIsSound(s, events[0]);
      StepShrinks(s, events[0]);
      SentinelStep(s, events[0], p, t0);
      if p in s1.rows {
        SentinelThrough(s1, rest, p, t0);
      } else {
        GoneThrough(s1, rest, p);
      }
    }
  }

  /** A rotation without a key lives through every run shorter than the abort
      deadline, whatever else happens in it, and the first sweep at or after the
      deadline drops its row: for any run ending in a sweep, the row is there iff
      the deadline has not come. */
  lemma SentinelDeadline(s: State, events: seq<Event>, p: Epoch, t0: nat, expected: set<Peer>)
    requires Sound(s) && Tracking(s, p, t0) && p in s.rows && !Real(s.rows[p])
    requires Undisturbed(events) && NoKeyFor(events, p)
    ensures var f := RunFrom(s, events);
            && (f.now < t0 + ABORT_AFTER ==> Tracking(f, p, t0) && p in InState(f.rows, Pending))
            && (p in Step(f, SweepTick(expected)).rows <==> f.now < t0 + ABORT_AFTER)
  {
    SentinelThrough(s, events, p, t0);
    var f := RunFrom(s, events);
    LiveIsNewest(f.rows);
    if p in f.rows {
      SentinelStep(f, SweepTick(expected), p, t0);
    } else {
      StepShrinks(f, SweepTick(expected));
    }
  }

  /** Time never goes back, and a number that is gone stays gone until a rotation
      begins. */
  lemma {:induction false} GoneThrough(s: State, events: seq<Event>, p: Epoch)
    requires Sound(s) && NoneBegins(events)
    ensures var f := RunFrom(s, events); Sound(f) && f.now >= s.now && (p !in s.rows ==> p !in f.rows)
    decreases |events|
  {
    if events == [] {
    } else {
      Tail(events);
      StepIsSound(s, events[0]);
      StepShrinks(s, events[0]);
      GoneThrough(Step(s, events[0]), events[1..], p);
    }
  }

  /** One event in the life of a rotation that has its key: it stays, or becomes
      the active one, and a sweep past the promote grace promotes it. */
  lemma KeyedStep(s: State, ev: Event, p: Epoch, t0: nat)
    requires Sound(s) && Tracking(s, p, t0) && p in s.rows && Real(s.rows[p]) && !ev.Begin? && !ev.Restart?
    ensures var s' := Step(s, ev);
            || (&& Tracking(s', p, t0) && p in s'.rows && Real(s'.rows[p])
                && (s.now >= t0 + GRACE_PROMOTE ==> !ev.SweepTick?))
            || (OneActive(s'.rows) && ActiveOf(s'.rows) == p && p !in InState(s'.rows, Pending))
  {
    LiveIsNewest(s.rows);
    if Drives(s, ev) {
      RecordedIsSound(s, ev);
      KeyedDrive(Recorded(s, ev), ev.expected, p, t0);
    } else if ev.SweepTick? {
      SweepPendings(s, ev.expected);
      KeyedDrive(s, ev.expected, p, t0);
    }
  }

  lemma KeyedDrive(s: State, expected: set<Peer>, p: Epoch, t0: nat)
    requires Sound(s) && Tracking(s, p, t0) && p in s.rows && Real(s.rows[p])
    ensures var s' := Drive(s, expected);
            || (s' == s && s.now < t0 + GRACE_PROMOTE)
            || (&& OneActive(s'.rows) && ActiveOf(s'.rows) == p && p !in InState(s'.rows, Pending)
                && s'.tracker.Some? && s'.rows == Promoted(s.rows, p))
  {
    LiveIsNewest(s.rows);
    KeyedPromotesExactly(s, expected);
    PromoteStates(s.rows, p);
  }

  /** Once promoted, or once gone, a row is not pending again until a rotation
      begins. */
  lemma {:induction false} NotPendingAgain(s: State, events: seq<Event>, p: Epoch)
    requires Sound(s) && NoneBegins(events) && p !in InState(s.rows, Pending)
    ensures p !in InState(RunFrom(s, events).rows, Pending)
    decreases |events|
  {
    if events == [] {
    } else {
      Tail(events);
      StepIsSound(s, events[0]);
      StepShrinks(s, events[0]);
      NotPendingAgain(Step(s, events[0]), events[1..], p);
    }
  }

  /** A keyed rotation is promoted by the first sweep at or after the promote
      grace: any run ending in such a sweep makes its row the active one at some
      point, and leaves it pending no more. */
  lemma {:induction false} KeyedDeadline(s: State, events: seq<Event>, p: Epoch, t0: nat, expected: set<Peer>)
    returns (k: nat)
    requires Sound(s) && Tracking(s, p, t0) && p in s.rows && Real(s.rows[p]) && Undisturbed(events)
    requires RunFrom(s, events).now >= t0 + GRACE_PROMOTE
    ensures var all := events + [SweepTick(expected)];
            && k <= |all| && OneActive(RunFrom(s, all[..k]).rows) && ActiveOf(RunFrom(s, all[..k]).rows) == p
            && p !in InState(RunFrom(s, all).rows, Pending)
    decreases |events|
  {
    var all := events + [SweepTick(expected)];
    var s1 := Step(s, all[0]);
    StepIsSound(s, all[0]);
    KeyedStep(s, all[0], p, t0);
    RunFromThen(s, events, [SweepTick(expected)]);
    assert all[..1] == [all[0]] && all[..1][1..] == [] && RunFrom(s, all[..1]) == s1;
    if p in InState(s1.rows, Pending) {
      var rest := events[1..];
      assert forall i :: 0 <= i < |rest| ==> rest[i] == events[i + 1];
      assert all[1..] == rest + [SweepTick(expected)];
      var j := KeyedDeadline(s1, rest, p, t0, expected);
      k := j + 1;
      assert all[..k][0] == all[0] && all[..k][1..] == all[1..][..j];
    } else {
      k := 1;
      assert forall i :: 0 <= i < |all[1..]| ==> all[1..][i] == all[i + 1];
      NotPendingAgain(s1, all[1..], p);
    }
  }

  /** Some connected peer has not acknowledged, and does not. */
  predicate Withheld(events: seq<Event>, p: Epoch, peer: Peer) {
    forall i :: 0 <= i < |events| ==>
      match events[i]
      case Submit(_, _, expected) => expected == {} || peer in expected
      case Ack(e, from, expected) => (expected == {} || peer in expected) && !(e == p && from == peer)
      case SweepTick(expected) => expected == {} || peer in expected
      case _ => true
  }

  /** And no sooner, while one connected peer withholds its acknowledgement. */
  lemma {:induction false} KeyedNotBefore(s: State, events: seq<Event>, p: Epoch, t0: nat, peer: Peer)
    requires Sound(s) && Tracking(s, p, t0) && p in s.rows && Real(s.rows[p]) && peer !in s.tracker.value.acks
    requires Undisturbed(events) && Withheld(events, p, peer)
    requires RunFrom(s, events).now < t0 + GRACE_PROMOTE
    ensures p in InState(RunFrom(s, events).rows, Pending)
    decreases |events|
  {
    LiveIsNewest(s.rows);
    if events == [] {
    } else {
      var ev, s1, rest := events[0], Step(s, events[0]), events[1..];
      assert forall i :: 0 <= i < |rest| ==> rest[i] == events[i + 1];
      assert NoneBegins(rest);
      StepIsSound(s, ev);
      GoneThrough(s1, rest, p);
      WithheldStep(s, ev, p, t0, peer);
      KeyedNotBefore(s1, rest, p, t0, peer);
    }
  }

  lemma WithheldStep(s: State, ev: Event, p: Epoch, t0: nat, peer: Peer)
    requires Sound(s) && Tracking(s, p, t0) && p in s.rows && Real(s.rows[p]) && peer !in s.tracker.value.acks
    requires Undisturbed([ev]) && Withheld([ev], p, peer) && Step(s, ev).now < t0 + GRACE_PROMOTE
    ensures var s' := Step(s, ev);
            Tracking(s', p, t0) && p in s'.rows && Real(s'.rows[p]) && peer !in s'.tracker.value.acks
  {
    assert [ev][0] == ev;
    LiveIsNewest(s.rows);
    if Drives(s, ev) {
      RecordedIsSound(s, ev);
      DriveClock(Recorded(s, ev), ev.expected);
      KeyedPromotesExactly(Recorded(s, ev), ev.expected);
    } else if ev.SweepTick? {
      SweepPendings(s, ev.expected);
      DriveClock(s, ev.expected);
      KeyedPromotesExactly(s, ev.expected);
    }
  }

  // ---- every rotation ends ----------------------------------------------

  function Restarts(events: seq<Event>): nat
    decreases |events|
  {
    if events == [] then 0 else Restarts(events[1..]) + if events[0].Restart? then 1 else 0
  }

  /** How many sweeps of a run lie at least the abort deadline apart, counting
      greedily; `gap` is the time since the last one counted. */
  function SpacedSweeps(events: seq<Event>, gap: nat): nat
    decreases |events|
  {
    if events == [] then 0
    else
      match events[0]
      case Tick(delta) => SpacedSweeps(events[1..], gap + delta)
      case SweepTick(_) =>
        if gap >= ABORT_AFTER then 1 + SpacedSweeps(events[1..], 0) else SpacedSweeps(events[1..], gap)
      case _ => SpacedSweeps(events[1..], gap)
  }

  /** A counted sweep lies `gap` back and moved nothing: the clock of whatever is
      in flight has been running at least that long. */
  ghost predicate Armed(s: State, gap: nat) {
    if InState(s.rows, Pending) != {} then
      && s.tracker.Some? && s.tracker.value.promotedAt.None?
      && LivePending(s.rows) == Some(s.tracker.value.pending) && s.tracker.value.startedAt + gap <= s.now
    else s.tracker.Some? ==> s.tracker.value.promotedAt.Some? && s.tracker.value.promotedAt.value + gap <= s.now
  }

  lemma DriveKeepsArmed(s: State, expected: set<Peer>, gap: nat)
    requires Sound(s)
    ensures InState(Drive(s, expected).rows, Pending) <= InState(s.rows, Pending)
    ensures Armed(s, gap) && InState(Drive(s, expected).rows, Pending) == InState(s.rows, Pending) ==>
              Armed(Drive(s, expected), gap)
  {
    if InState(s.rows, Pending) != {} {
      DriveOnce(s, expected);
    } else {
      DriveWithoutPending(s, expected);
    }
  }

  /** Between counted sweeps: the rotations in flight do not grow, and if none
      ended the clock keeps running. */
  lemma QuietStep(s: State, ev: Event, gap: nat)
    requires Sound(s) && (ev.Submit? || ev.Ack? || ev.SweepTick?)
    ensures var s' := Step(s, ev);
            && InState(s'.rows, Pending) <= InState(s.rows, Pending)
            && (Armed(s, gap) && InState(s'.rows, Pending) == InState(s.rows, Pending) ==> Armed(s', gap))
  {
    if Drives(s, ev) {
      RecordedIsSound(s, ev);
      DriveKeepsArmed(Recorded(s, ev), ev.expected, gap);
    } else if ev.SweepTick? {
      SweepPendings(s, ev.expected);
      DriveKeepsArmed(s, ev.expected, gap);
      DriveClock(s, ev.expected);
      if InState(Step(s, ev).rows, Pending) == InState(s.rows, Pending) && !Settled(s.rows) {
        assert LivePending(Step(s, ev).rows) == LivePending(Drive(s, ev.expected).rows);
      }
    }
  }

  /** A sweep that moves nothing has started the clock. */
  lemma SweepArms(s: State, expected: set<Peer>)
    requires Sound(s) && InState(Sweep(s, expected).rows, Pending) == InState(s.rows, Pending)
    ensures Armed(Sweep(s, expected), 0)
  {
    SweepPendings(s, expected);
    SweepIsSound(s, expected);
    DriveClock(s, expected);
    if InState(s.rows, Pending) != {} {
      DriveOnce(s, expected);
    } else {
      DriveWithoutPending(Sweep(s, expected), expected);
    }
  }

  /** And one that finds the clock run out ends something. */
  lemma ArmedSweepMoves(s: State, expected: set<Peer>, gap: nat)
    requires Sound(s) && Armed(s, gap) && gap >= ABORT_AFTER
    ensures if InState(s.rows, Pending) == {} then Settled(Sweep(s, expected).rows)
            else InState(Sweep(s, expected).rows, Pending) < InState(s.rows, Pending)
  {
    SweepPendings(s, expected);
    if InState(s.rows, Pending) != {} {
      DriveOnce(s, expected);
    } else {
      DriveWithoutPending(s, expected);
    }
  }

  lemma {:induction false} SettledStays(s: State, events: seq<Event>)
    requires Sound(s) && Settled(s.rows) && NoneBegins(events)
    ensures Settled(RunFrom(s, events).rows)
    decreases |events|
  {
    if events == [] {
    } else {
      Tail(events);
      StepIsSound(s, events[0]);
      if events[0].Ack? {
        DriveWithoutPending(s, events[0].expected);
        assert s.tracker.None?;
      }
      SettledStays(Step(s, events[0]), events[1..]);
    }
  }

  lemma SubsetSmaller(a: set<Epoch>, b: set<Epoch>)
    requires a <= b
    ensures |a| <= |b| && (a != b ==> |a| < |b|)
  {
    assert b == a + (b - a);
    if a != b {
      assert |b - a| > 0;
    }
  }

  lemma {:induction false} RotationsEnd(s: State, events: seq<Event>, gap: nat, armed: bool)
    requires Sound(s) && NoneBegins(events) && (armed ==> Armed(s, gap))
    requires SpacedSweeps(events, gap) >=
             2 * |InState(s.rows, Pending)| + Restarts(events) + if armed then 1 else 2
    ensures Settled(RunFrom(s, events).rows)
    decreases |events|
  {
    if Settled(s.rows) {
      SettledStays(s, events);
    } else {
      Tail(events);
      var ev, rest := events[0], events[1..];
      var s' := Step(s, ev);
      StepIsSound(s, ev);
      if ev.Tick? {
        RotationsEnd(s', rest, gap + ev.delta, armed);
      } else if ev.Restart? {
        RotationsEnd(s', rest, gap, false);
      } else {
        QuietStep(s, ev, gap);
        SubsetSmaller(InState(s'.rows, Pending), InState(s.rows, Pending));
        var counted := ev.SweepTick? && gap >= ABORT_AFTER;
        if counted && armed {
          ArmedSweepMoves(s, ev.expected, gap);
          if Settled(s'.rows) {
            SettledStays(s', rest);
          } else {
            RotationsEnd(s', rest, 0, false);
          }
        } else if counted && InState(s'.rows, Pending) == InState(s.rows, Pending) {
          SweepArms(s, ev.expected);
          RotationsEnd(s', rest, 0, true);
        } else {
          RotationsEnd(s', rest, if counted then 0 else gap,
                       armed && InState(s'.rows, Pending) == InState(s.rows, Pending));
        }
      }
    }
  }

  /** Whatever state a run has reached: sweeps end every rotation in flight. Two
      sweeps at least the abort deadline apart for each pending row, and two more,
      are enough, with any other sweeps, keys and acknowledgements in between; a
      controller restart, which throws the running clock away, costs one more. */
  lemma EveryRotationEnds(pubkey: string, before: seq<Event>, events: seq<Event>)
    requires pubkey != SENTINEL && NoneBegins(events)
    requires SpacedSweeps(events, ABORT_AFTER) >=
             2 * |InState(Run(pubkey, before).rows, Pending)| + 2 + Restarts(events)
    ensures Settled(Run(pubkey, before + events).rows)
  {
    RunIsSound(pubkey, before);
    RotationsEnd(Run(pubkey, before), events, ABORT_AFTER, false);
    RunContinues(pubkey, before, events);
  }

  // ---- the active epoch -------------------------------------------------

  /** Every pending row is the newest row; so there is at most one. */
  predicate PendingNewest(rows: Rows) {
    forall p, r :: p in InState(rows, Pending) && r in rows ==> r <= p
  }

  /** Every keyed pending row is the newest row. */
  predicate KeyedNewest(rows: Rows) {
    forall p, r :: p in InState(rows, Pending) && Real(rows[p]) && r in rows ==> r <= p
  }

  ghost function ActiveNow(s: State): Epoch {
    if OneActive(s.rows) then ActiveOf(s.rows) else 0
  }

  /** While keyed rows are newest, driving can only raise the active epoch. */
  lemma EffectRises(rows: Rows, rows': Rows)
    requires TableEffect(rows, rows') && KeyedNewest(rows)
    ensures ActiveOf(rows') >= ActiveOf(rows) && KeyedNewest(rows')
    ensures PendingNewest(rows) ==> PendingNewest(rows')
  {
    OnlyOneIsActive(rows);
  }

  /** One step, when every pending row is newest and a rotation begins only with
      none pending. */
  lemma StepRises(s: State, ev: Event)
    requires Sound(s) && PendingNewest(s.rows) && (ev.Begin? ==> InState(s.rows, Pending) == {})
    ensures Sound(Step(s, ev)) && PendingNewest(Step(s, ev).rows) && ActiveNow(Step(s, ev)) >= ActiveNow(s)
  {
    StepIsSound(s, ev);
    if ev.Begin? {
      BeginStates(s.rows);
    } else if Drives(s, ev) {
      RecordedIsSound(s, ev);
      DriveEffect(Recorded(s, ev), ev.expected);
      EffectRises(Recorded(s, ev).rows, Step(s, ev).rows);
    } else if ev.SweepTick? {
      SweepEffect(s, ev.expected);
      EffectRises(s.rows, Step(s, ev).rows);
    }
  }

  lemma BeginStates(rows: Rows)
    requires OneActive(rows)
    ensures var n := NextEpoch(rows.Keys);
            && n !in rows && InState(Rotated(rows), Pending) == InState(rows, Pending) + {n}
            && InState(Rotated(rows), Retiring) == InState(rows, Retiring)
            && OneActive(Rotated(rows)) && ActiveOf(Rotated(rows)) == ActiveOf(rows)
  {
    var n := NextEpoch(rows.Keys);
    assert n !in rows;
    assert InState(Rotated(rows), Pending) == InState(rows, Pending) + {n};
    assert InState(Rotated(rows), Retiring) == InState(rows, Retiring);
    assert InState(Rotated(rows), Active) == InState(rows, Active);
    OnlyOneIsActive(rows);
    SameActive(rows, Rotated(rows));
  }

  /** Rotations begin only when none is pending. The rotation timer sees to that,
      and more: it also waits for the old key to be retired. */
  ghost predicate OneAtATime(pubkey: string, events: seq<Event>) {
    forall k :: 0 <= k < |events| && events[k].Begin? ==> InState(Run(pubkey, events[..k]).rows, Pending) == {}
  }

  lemma {:induction false} OneAtATimeStaysNewest(pubkey: string, events: seq<Event>)
    requires pubkey != SENTINEL && OneAtATime(pubkey, events)
    ensures Sound(Run(pubkey, events)) && PendingNewest(Run(pubkey, events).rows)
  {
    RunIsSound(pubkey, events);
    if events == [] {
      assert InState(Initial(pubkey).rows, Pending) == {};
    } else {
      var m := |events| - 1;
      var before := events[..m];
      assert forall k :: 0 <= k <= m ==> events[..k] == before[..k];
      OneAtATimeStaysNewest(pubkey, before);
      StepRises(Run(pubkey, before), events[m]);
    }
  }

  /** One rotation at a time, restarts and aborts included: the active epoch never
      goes down. */
  lemma ActiveOnlyRises(pubkey: string, events: seq<Event>, ev: Event)
    requires pubkey != SENTINEL && OneAtATime(pubkey, events)
    ensures ActiveNow(Step(Run(pubkey, events), ev)) >= ActiveNow(Run(pubkey, events))
  {
    OneAtATimeStaysNewest(pubkey, events);
    if ev.Begin? {
      BeginStates(Run(pubkey, events).rows);
    } else {
      StepRises(Run(pubkey, events), ev);
    }
  }

  // ---- and when it does -------------------------------------------------

  ghost predicate NeverLowers(s: State, events: seq<Event>)
    decreases |events|
  {
    events == [] ||
    (ActiveNow(Step(s, events[0])) >= ActiveNow(s) && NeverLowers(Step(s, events[0]), events[1..]))
  }

  lemma {:induction false} NewestNeverLowers(s: State, events: seq<Event>)
    requires Sound(s) && PendingNewest(s.rows) && NoneBegins(events)
    ensures NeverLowers(s, events)
    decreases |events|
  {
    if events == [] {
    } else {
      Tail(events);
      StepRises(s, events[0]);
      NewestNeverLowers(Step(s, events[0]), events[1..]);
    }
  }

  lemma {:induction false} NeverLowersSplits(s: State, a: seq<Event>, b: seq<Event>)
    requires NeverLowers(s, a + b)
    ensures NeverLowers(RunFrom(s, a), b) && ActiveNow(RunFrom(s, a)) >= ActiveNow(s)
    decreases |a|
  {
    if a == [] {
      assert a + b == b;
    } else {
      assert (a + b)[0] == a[0] && (a + b)[1..] == a[1..] + b;
      NeverLowersSplits(Step(s, a[0]), a[1..], b);
    }
  }

  /** Three events that promote the live rotation once it has its key. */
  function Promoting(): seq<Event> {
    [SweepTick({}), Tick(GRACE_PROMOTE), SweepTick({})]
  }

  lemma PromotingPromotes(s: State, q: Epoch)
    requires Sound(s) && LivePending(s.rows) == Some(q) && q in s.rows && Real(s.rows[q])
    requires s.tracker.None? || s.tracker.value.pending != q || Tracking(s, q, s.now)
    ensures var s' := RunFrom(s, Promoting());
            && Sound(s') && s'.rows == Promoted(s.rows, q)
            && s'.tracker.Some? && s'.tracker.value.pending == q && s'.tracker.value.promotedAt.Some?
  {
    LiveIsNewest(s.rows);
    var s1 := Step(s, SweepTick({}));
    SweepPendings(s, {});
    if Tracking(s, q, s.now) {
      KeyedPromotesExactly(s, {});
    } else {
      SeedTracks(s, q, {});
    }
    assert s1.rows == s.rows && Tracking(s1, q, s.now);
    StepIsSound(s, SweepTick({}));
    var s2 := Step(s1, Tick(GRACE_PROMOTE));
    StepIsSound(s1, Tick(GRACE_PROMOTE));
    SweepPendings(s2, {});
    KeyedPromotesExactly(s2, {});
    StepIsSound(s2, SweepTick({}));
    var events := Promoting();
    assert events[1..][1..][1..] == [] && events[1..][0] == Tick(GRACE_PROMOTE) && events[1..][1..][0] == SweepTick({});
  }

  /** A key for `e` arrives while the live rotation's clock has not started, or has
      just started: it is recorded, and nothing else happens to the table. */
  lemma KeyArrives(s: State, e: Epoch, pubkey: string, n: Epoch)
    requires Sound(s) && LivePending(s.rows) == Some(n) && CanSet(s.rows, e)
    requires s.tracker.None? || s.tracker.value.pending != n || Tracking(s, n, s.now)
    ensures var s' := Step(s, Submit(e, pubkey, {}));
            Sound(s') && s'.rows == Filled(s.rows, e, pubkey) && s'.now == s.now && Tracking(s', n, s.now)
  {
    var ev := Submit(e, pubkey, {});
    StepIsSound(s, ev);
    RecordedIsSound(s, ev);
    var r := Recorded(s, ev);
    LiveIsNewest(r.rows);
    if Tracking(s, n, s.now) {
      if Real(r.rows[n]) {
        KeyedPromotesExactly(r, {});
      } else {
        SentinelAbortsExactly(r, {});
      }
    } else {
      SeedTracks(r, n, {});
    }
  }

  /** What follows a rotation begun while `p` is pending: both get their keys, the
      newer is promoted, then the older one is taken up and promoted after it. */
  function Stacked(p: Epoch, n: Epoch, k1: string, k2: string): seq<Event> {
    [Submit(p, k1, {}), Submit(n, k2, {})]
  }

  predicate Newest(rows: Rows, p: Epoch) {
    p in rows && forall r :: r in rows ==> r <= p
  }

  /** A rotation begun on top of others: it takes the next number and is live. */
  lemma BegunOnTop(s: State, n: Epoch)
    requires Sound(s) && n == NextEpoch(s.rows.Keys)
    ensures var b := Step(s, Begin);
            && Sound(b) && b == s.(rows := s.rows[n := Row(SENTINEL, Pending)])
            && InState(b.rows, Pending) == InState(s.rows, Pending) + {n}
            && LivePending(b.rows) == Some(n) && ActiveOf(b.rows) == ActiveOf(s.rows)
            && (b.tracker.None? || b.tracker.value.pending != n)
  {
    BeginIsSound(s);
    BeginStates(s.rows);
    LiveIs(Step(s, Begin).rows, n);
    OnlyOneIsActive(s.rows);
  }

  /** The older row's key, if it has none yet. */
  lemma OlderKeyed(b: State, p: Epoch, n: Epoch, k1: string)
    requires Sound(b) && k1 != SENTINEL && p in InState(b.rows, Pending) && p != n && LivePending(b.rows) == Some(n)
    requires CanSet(b.rows, n) && (b.tracker.None? || b.tracker.value.pending != n)
    ensures var s' := Step(b, Submit(p, k1, {}));
            && Sound(s') && s'.now == b.now && s'.rows == (if CanSet(b.rows, p) then Filled(b.rows, p, k1) else b.rows)
            && InState(s'.rows, Pending) == InState(b.rows, Pending) && LivePending(s'.rows) == Some(n)
            && Real(s'.rows[p]) && ActiveOf(s'.rows) == ActiveOf(b.rows)
            && (s'.tracker.None? || s'.tracker.value.pending != n || Tracking(s', n, b.now))
  {
    if CanSet(b.rows, p) {
      KeyArrives(b, p, k1, n);
      FilledStates(b.rows, p, k1);
    }
  }

  function BothKeyedRows(rows: Rows, p: Epoch, n: Epoch, k1: string, k2: string): Rows
    requires p in rows
  {
    (if CanSet(rows, p) then Filled(rows, p, k1) else rows)[n := Row(k2, Pending)]
  }

  lemma BothKeyedStates(rows: Rows, p: Epoch, n: Epoch, k1: string, k2: string)
    requires LivePending(rows) == Some(p) && IsNext(rows.Keys, n) && k1 != SENTINEL && k2 != SENTINEL
    ensures var rows' := BothKeyedRows(rows, p, n, k1, k2);
            && InState(rows', Pending) == InState(rows, Pending) + {n}
            && Real(rows'[p]) && Real(rows'[n]) && LivePending(rows') == Some(n)
            && (forall r :: r in rows && r != p ==> r in rows' && rows'[r] == rows[r])
  {
    LiveIsNewest(rows);
    var rows' := BothKeyedRows(rows, p, n, k1, k2);
    assert InState(rows', Pending) == InState(rows, Pending) + {n};
    LiveIs(rows', n);
  }

  lemma BothKeysArrive(b: State, p: Epoch, n: Epoch, k1: string, k2: string)
    requires Sound(b) && k1 != SENTINEL && p in InState(b.rows, Pending) && p != n && LivePending(b.rows) == Some(n)
    requires CanSet(b.rows, n) && (b.tracker.None? || b.tracker.value.pending != n)
    ensures var s' := RunFrom(b, Stacked(p, n, k1, k2));
            && Sound(s') && s'.now == b.now && Tracking(s', n, b.now)
            && s'.rows == Filled(if CanSet(b.rows, p) then Filled(b.rows, p, k1) else b.rows, n, k2)
  {
    OlderKeyed(b, p, n, k1);
    KeyArrives(Step(b, Submit(p, k1, {})), n, k2, n);
    TwoEvents(b, Submit(p, k1, {}), Submit(n, k2, {}));
  }

  lemma BothKeyed(s: State, p: Epoch, n: Epoch, k1: string, k2: string)
    requires Sound(s) && LivePending(s.rows) == Some(p) && n == NextEpoch(s.rows.Keys)
    requires k1 != SENTINEL && k2 != SENTINEL
    ensures var s' := RunFrom(Step(s, Begin), Stacked(p, n, k1, k2));
            && Sound(s') && s'.now == s.now && Tracking(s', n, s.now)
            && s'.rows == BothKeyedRows(s.rows, p, n, k1, k2)
  {
    BegunOnTop(s, n);
    LiveIsNewest(s.rows);
    BothKeysArrive(Step(s, Begin), p, n, k1, k2);
  }

  lemma TwoEvents(s: State, a: Event, b: Event)
    ensures RunFrom(s, [a, b]) == Step(Step(s, a), b)
  {
    assert [a, b][1..] == [b] && [b][1..] == [];
    assert RunFrom(Step(s, a), [b]) == RunFrom(Step(Step(s, a), b), []);
  }

  lemma LiveIs(rows: Rows, p: Epoch)
    requires p in InState(rows, Pending) && forall e :: e in InState(rows, Pending) ==> e <= p
    ensures LivePending(rows) == Some(p)
  {
    LiveIsNewest(rows);
  }

  lemma NextIs(s: set<Epoch>, n: nat)
    requires IsNext(s, n)
    ensures NextEpoch(s) == n
  {
    var m := NextEpoch(s);
    assert IsNext(s, m);
  }

  /** So a rotation begun while others are pending can take the active epoch back
      down, from the new number to that of the newest of them. */
  lemma StackedRotationLowersActive(s: State, p: Epoch, n: Epoch, k1: string, k2: string)
    requires Sound(s) && LivePending(s.rows) == Some(p) && n == NextEpoch(s.rows.Keys)
    requires k1 != SENTINEL && k2 != SENTINEL
    ensures p < n
    ensures var keyed := RunFrom(Step(s, Begin), Stacked(p, n, k1, k2));
            var high := RunFrom(keyed, Promoting());
            var low := RunFrom(high, Promoting());
            && Sound(high) && ActiveNow(high) == n && Sound(low) && ActiveNow(low) == p
            && InState(low.rows, Pending) == InState(s.rows, Pending) - {p}
            && (forall q :: q in InState(low.rows, Pending) ==> low.rows[q] == s.rows[q])
  {
    var keyed := RunFrom(Step(s, Begin), Stacked(p, n, k1, k2));
    LiveIsNewest(s.rows);
    BothKeyed(s, p, n, k1, k2);
    BothKeyedStates(s.rows, p, n, k1, k2);
    PromotingPromotes(keyed, n);
    NewerPromoted(keyed, RunFrom(keyed, Promoting()), p, n);
  }

  lemma NewerPromoted(keyed: State, s1: State, p: Epoch, n: Epoch)
    requires Sound(keyed) && p in InState(keyed.rows, Pending) && Real(keyed.rows[p]) && p != n
    requires forall q :: q in InState(keyed.rows, Pending) && q != n ==> q <= p
    requires LivePending(keyed.rows) == Some(n) && CanPromote(keyed.rows, n)
    requires Sound(s1) && s1.rows == Promoted(keyed.rows, n)
    requires s1.tracker.Some? && s1.tracker.value.pending == n
    ensures ActiveNow(s1) == n
    ensures var s2 := RunFrom(s1, Promoting());
            && Sound(s2) && ActiveNow(s2) == p
            && InState(s2.rows, Pending) == InState(keyed.rows, Pending) - {p, n}
            && (forall q :: q in InState(s2.rows, Pending) ==> s2.rows[q] == keyed.rows[q])
  {
    PromoteStates(keyed.rows, n);
    LiveIsNewest(keyed.rows);
    LiveIs(s1.rows, p);
    PromotingPromotes(s1, p);
    PromoteStates(s1.rows, p);
  }

  lemma BegunOnce(pubkey: string)
    requires pubkey != SENTINEL
    ensures var s := Run(pubkey, [Begin]);
            Sound(s) && s.rows == map[0 := Row(pubkey, Active), 1 := Row(SENTINEL, Pending)]
            && LivePending(s.rows) == Some(1) && NextEpoch(s.rows.Keys) == 2
  {
    RunIsSound(pubkey, [Begin]);
    assert [] + [Begin] == [Begin];
    Then(pubkey, [], Begin);
    NextIs({0}, 1);
    var s := Run(pubkey, [Begin]);
    LiveIs(s.rows, 1);
    NextIs(s.rows.Keys, 2);
  }

  /** Begin twice after enrollment, let both keys come, and the active epoch goes to
      two and back to one. */
  lemma TwoBeginsLowerActive(pubkey: string, k1: string, k2: string)
    requires pubkey != SENTINEL && k1 != SENTINEL && k2 != SENTINEL
    ensures var high := [Begin, Begin] + Stacked(1, 2, k1, k2) + Promoting();
            ActiveNow(Run(pubkey, high)) == 2 && ActiveNow(Run(pubkey, high + Promoting())) == 1
  {
    var s := Run(pubkey, [Begin]);
    BegunOnce(pubkey);
    StackedRotationLowersActive(s, 1, 2, k1, k2);
    var b, stacked := Step(s, Begin), Stacked(1, 2, k1, k2);
    Then(pubkey, [Begin], Begin);
    assert [Begin] + [Begin] == [Begin, Begin];
    RunContinues(pubkey, [Begin, Begin], stacked);
    RunContinues(pubkey, [Begin, Begin] + stacked, Promoting());
    RunContinues(pubkey, [Begin, Begin] + stacked + Promoting(), Promoting());
  }

  /** Exact: after a rotation begins, no run until the next one begins ever lowers
      the active epoch iff no row was pending when it began. */
  lemma BeginSafeIff(s: State)
    requires Sound(s)
    ensures (forall events :: NoneBegins(events) ==> NeverLowers(Step(s, Begin), events))
            <==> InState(s.rows, Pending) == {}
  {
    if InState(s.rows, Pending) == {} {
      StepRises(s, Begin);
      forall events | NoneBegins(events) ensures NeverLowers(Step(s, Begin), events) {
        NewestNeverLowers(Step(s, Begin), events);
      }
    } else {
      LiveIsNewest(s.rows);
      var events := LoweringRun(s, LivePending(s.rows).value);
      assert !NeverLowers(Step(s, Begin), events);
    }
  }

  lemma LoweringRun(s: State, p: Epoch) returns (events: seq<Event>)
    requires Sound(s) && LivePending(s.rows) == Some(p)
    ensures NoneBegins(events) && !NeverLowers(Step(s, Begin), events)
  {
    var n := NextEpoch(s.rows.Keys);
    StackedRotationLowersActive(s, p, n, "1", "2");
    var a, b := Stacked(p, n, "1", "2") + Promoting(), Promoting();
    events := a + b;
    RunFromThen(Step(s, Begin), Stacked(p, n, "1", "2"), Promoting());
    RunFromThen(Step(s, Begin), a, b);
    if NeverLowers(Step(s, Begin), events) {
      NeverLowersSplits(Step(s, Begin), a, b);
      NeverLowersEnds(RunFrom(Step(s, Begin), a), b);
      assert false;
    }
  }

  lemma NeverLowersEnds(s: State, events: seq<Event>)
    requires NeverLowers(s, events)
    ensures ActiveNow(RunFrom(s, events)) >= ActiveNow(s)
  {
    assert events + [] == events;
    NeverLowersSplits(s, events, []);
  }

  // ---- sweeping a table clean -------------------------------------------

  predicate NoneKeyed(rows: Rows) {
    forall p :: p in InState(rows, Pending) ==> !Real(rows[p])
  }

  /** Sweeps spaced by the abort deadline. */
  function Settling(m: nat): seq<Event> {
    if m == 0 then [] else [SweepTick({}), Tick(ABORT_AFTER)] + Settling(m - 1)
  }

  lemma {:induction false} SettlingCounts(m: nat, gap: nat)
    requires gap >= ABORT_AFTER
    ensures SpacedSweeps(Settling(m), gap) == m && Restarts(Settling(m)) == 0
    ensures forall i :: 0 <= i < |Settling(m)| ==> Settling(m)[i].Tick? || Settling(m)[i].SweepTick?
  {
    if m == 0 {
    } else {
      var events, rest := Settling(m), Settling(m - 1);
      assert events[1..] == [Tick(ABORT_AFTER)] + rest && events[1..][1..] == rest;
      SettlingCounts(m - 1, ABORT_AFTER);
    }
  }

  /** Without a keyed pending row, nothing is promoted. */
  lemma {:induction false} UnkeyedKeepsActive(s: State, events: seq<Event>)
    requires Sound(s) && NoneKeyed(s.rows)
    requires forall i :: 0 <= i < |events| ==> events[i].Tick? || events[i].SweepTick?
    ensures var f := RunFrom(s, events); Sound(f) && ActiveNow(f) == ActiveNow(s)
    decreases |events|
  {
    if events == [] {
    } else {
      var s1, rest := Step(s, events[0]), events[1..];
      assert forall i :: 0 <= i < |rest| ==> rest[i] == events[i + 1];
      StepIsSound(s, events[0]);
      if events[0].SweepTick? {
        SweepEffect(s, events[0].expected);
      }
      UnkeyedKeepsActive(s1, rest);
    }
  }

  /** Enough of them leave only the active row. */
  lemma SettlesToActive(s: State, m: nat)
    requires Sound(s) && NoneKeyed(s.rows) && m >= 2 * |InState(s.rows, Pending)| + 2
    ensures var f := RunFrom(s, Settling(m)); Sound(f) && Settled(f.rows) && f.rows.Keys == {ActiveNow(s)}
  {
    SettlingCounts(m, ABORT_AFTER);
    UnkeyedKeepsActive(s, Settling(m));
    RotationsEnd(s, Settling(m), ABORT_AFTER, false);
    var f := RunFrom(s, Settling(m));
    OnlyOneIsActive(f.rows);
    forall r ensures r in f.rows <==> r == ActiveNow(s) {
      assert r in f.rows ==> r in InState(f.rows, f.rows[r].state);
    }
  }
}
