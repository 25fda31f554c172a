/** The gateway's policy-apply worker: a latest-wins mailbox, a per-enforcer
    reap deadline, and an install that may be partial, deferred or failed, all
    racing against publishes and against rotations that add and drop tunnels. */
module PolicyWorker {
  import opened Outcomes
  import G = Generations

  type TunnelId = nat

  /** A desired state: its policy version, the policy itself, and all the rest. */
  datatype Desired = Desired(version: nat, ir: nat, rest: nat)

  /** The state this enforcer was last written from, and every attempt to write
      it, failed ones included. Only the two-slot backend publishes a deadline. */
  datatype Enforcer = Enforcer(applied: Option<Desired>, twoSlot: bool, attempts: seq<G.Attempt>)

  function Version(e: Enforcer): Option<nat> {
    if e.applied.Some? then Some(e.applied.value.version) else None
  }

  type Enforcers = map<TunnelId, Enforcer>

  predicate NeedsPolicyWrite(applied: Option<nat>, target: nat, newest: bool) {
    match applied
    case None => true
    case Some(v) => v < target || (v > target && newest)
  }

  function LastFlip(log: seq<G.Attempt>): Option<nat> {
    if log == [] then None
    else if log[|log| - 1].flippedAt.Some? then log[|log| - 1].flippedAt
    else LastFlip(log[..|log| - 1])
  }

  function ApplyReadyAt(e: Enforcer, grace: nat): Option<nat> {
    if e.twoSlot && LastFlip(e.attempts).Some? then Some(LastFlip(e.attempts).value + grace) else None
  }

  predicate Ready(e: Enforcer, grace: nat, now: nat) {
    ApplyReadyAt(e, grace).Some? ==> ApplyReadyAt(e, grace).value <= now
  }

  function Written(e: Enforcer, ds: Desired, now: nat): Enforcer {
    e.(applied := Some(ds), attempts := e.attempts + [G.Attempt(now, Some(now))])
  }

  /** An apply that failed: it may have replaced some of the target slot's maps,
      but it did not flip. */
  function Botched(e: Enforcer, now: nat): Enforcer {
    e.(attempts := e.attempts + [G.Attempt(now, None)])
  }

  // ---- one install ------------------------------------------------------

  datatype Attempt = Attempt(enforcers: Enforcers, deferred: bool, failed: bool)

  predicate Covers(order: seq<TunnelId>, m: Enforcers) {
    (forall id :: id in order ==> id in m) && (forall id :: id in m ==> id in order)
  }

  /** The entries in iteration order: skip what is already there, defer what is
      inside its grace, stop at the first entry (of `broken`) that fails. */
  function Visit(m: Enforcers, order: seq<TunnelId>, ds: Desired, newest: bool,
                 grace: nat, now: nat, broken: set<TunnelId>): Attempt
    requires forall id :: id in order ==> id in m
  {
    if order == [] then Attempt(m, false, false)
    else
      var id, e := order[0], m[order[0]];
      if !NeedsPolicyWrite(Version(e), ds.version, newest) then
        Visit(m, order[1..], ds, newest, grace, now, broken)
      else if !Ready(e, grace, now) then
        Visit(m, order[1..], ds, newest, grace, now, broken).(deferred := true)
      else if id in broken then Attempt(m[id := Botched(e, now)], false, true)
      else Visit(m[id := Written(e, ds, now)], order[1..], ds, newest, grace, now, broken)
  }

  predicate Success(a: Attempt) {
    !a.deferred && !a.failed
  }

  lemma {:induction false} VisitKeys(m: Enforcers, order: seq<TunnelId>, ds: Desired, newest: bool,
                                     grace: nat, now: nat, broken: set<TunnelId>)
    requires forall id :: id in order ==> id in m
    ensures Visit(m, order, ds, newest, grace, now, broken).enforcers.Keys == m.Keys
    decreases |order|
  {
    if order == [] {
    } else {
      var first, e := order[0], m[order[0]];
      if !NeedsPolicyWrite(Version(e), ds.version, newest) || !Ready(e, grace, now) {
        VisitKeys(m, order[1..], ds, newest, grace, now, broken);
      } else if first !in broken {
        VisitKeys(m[first := Written(e, ds, now)], order[1..], ds, newest, grace, now, broken);
      }
    }
  }

  /** Entry by entry: untouched, or written, with or without success, because it
      needed it and was past its grace. */
  predicate EntryEffect(e: Enforcer, e': Enforcer, ds: Desired, newest: bool, grace: nat, now: nat) {
    || e' == e
    || (&& NeedsPolicyWrite(Version(e), ds.version, newest) && Ready(e, grace, now)
        && (e' == Written(e, ds, now) || e' == Botched(e, now)))
  }

  lemma {:induction false} VisitEffect(m: Enforcers, order: seq<TunnelId>, ds: Desired, newest: bool,
                                       grace: nat, now: nat, broken: set<TunnelId>, id: TunnelId)
    requires (forall id :: id in order ==> id in m) && id in m
    ensures var a := Visit(m, order, ds, newest, grace, now, broken);
            && id in a.enforcers
            && EntryEffect(m[id], a.enforcers[id], ds, newest, grace, now)
            && (!NeedsPolicyWrite(Version(m[id]), ds.version, newest) ==> a.enforcers[id] == m[id])
            && (Success(a) && id in order ==> !NeedsPolicyWrite(Version(a.enforcers[id]), ds.version, newest))
    decreases |order|
  {
    if order == [] {
    } else {
      var first, e := order[0], m[order[0]];
      var rest := order[1..];
      if !NeedsPolicyWrite(Version(e), ds.version, newest) || !Ready(e, grace, now) {
        VisitEffect(m, rest, ds, newest, grace, now, broken, id);
      } else if first !in broken {
        VisitEffect(m[first := Written(e, ds, now)], rest, ds, newest, grace, now, broken, id);
      }
    }
  }

  /** Without a failing entry, an install is complete exactly when every entry
      it would write is past its deadline. */
  lemma {:induction false} InstallCompletes(m: Enforcers, order: seq<TunnelId>, ds: Desired, newest: bool,
                                            grace: nat, now: nat)
    requires forall id :: id in order ==> id in m
    ensures Success(Visit(m, order, ds, newest, grace, now, {})) <==>
            forall id :: id in order && NeedsPolicyWrite(Version(m[id]), ds.version, newest) ==>
              Ready(m[id], grace, now)
    decreases |order|
  {
    if order == [] {
    } else {
      var first, e := order[0], m[order[0]];
      var rest := order[1..];
      assert order == [first] + rest;
      if !NeedsPolicyWrite(Version(e), ds.version, newest) || !Ready(e, grace, now) {
        InstallCompletes(m, rest, ds, newest, grace, now);
      } else {
        InstallCompletes(m[first := Written(e, ds, now)], rest, ds, newest, grace, now);
      }
    }
  }

  /** The furthest deadline among the entries an install would write. */
  function Deadline(m: Enforcers, order: seq<TunnelId>, ds: Desired, newest: bool, grace: nat): Option<nat>
    requires forall id :: id in order ==> id in m
  {
    if order == [] then None
    else
      var rest := Deadline(m, order[1..], ds, newest, grace);
      var e := m[order[0]];
      if NeedsPolicyWrite(Version(e), ds.version, newest) then Later(ApplyReadyAt(e, grace), rest) else rest
  }

  function Later(a: Option<nat>, b: Option<nat>): Option<nat> {
    if a.None? then b else if b.None? then a else if a.value < b.value then b else a
  }

  predicate Passed(deadline: Option<nat>, now: nat) {
    deadline.Some? ==> deadline.value <= now
  }

  lemma {:induction false} DeadlineCoversAll(m: Enforcers, order: seq<TunnelId>, ds: Desired, newest: bool,
                                             grace: nat, now: nat)
    requires forall id :: id in order ==> id in m
    ensures Passed(Deadline(m, order, ds, newest, grace), now) <==>
            forall id :: id in order && NeedsPolicyWrite(Version(m[id]), ds.version, newest) ==>
              Ready(m[id], grace, now)
  {
    if order == [] {
    } else {
      DeadlineCoversAll(m, order[1..], ds, newest, grace, now);
      assert order == [order[0]] + order[1..];
    }
  }

  /** The deadline read beforehand is exact: with nothing failing and no change
      in between, the install completes iff that moment has passed. */
  lemma DeadlineIsExact(m: Enforcers, order: seq<TunnelId>, ds: Desired, newest: bool, grace: nat, now: nat)
    requires forall id :: id in order ==> id in m
    ensures Success(Visit(m, order, ds, newest, grace, now, {})) <==>
            Passed(Deadline(m, order, ds, newest, grace), now)
  {
    InstallCompletes(m, order, ds, newest, grace, now);
    DeadlineCoversAll(m, order, ds, newest, grace, now);
  }

  /** The highest version live on any entry. */
  function LiveMax(m: Enforcers, order: seq<TunnelId>): Option<nat>
    requires forall id :: id in order ==> id in m
  {
    if order == [] then None else Later(Version(m[order[0]]), LiveMax(m, order[1..]))
  }

  lemma {:induction false} LiveMaxUniform(m: Enforcers, order: seq<TunnelId>, v: nat)
    requires order != [] && forall id :: id in order ==> id in m && Version(m[id]) == Some(v)
    ensures LiveMax(m, order) == Some(v)
  {
    if |order| > 1 {
      LiveMaxUniform(m, order[1..], v);
    } else {
      assert order[1..] == [];
    }
  }

  class EnforcerApplyTarget {
    var enforcers: Enforcers
    var appliedVersion: Option<nat>

    constructor (m: Enforcers)
      ensures enforcers == m && appliedVersion == None
    {
      enforcers, appliedVersion := m, None;
    }

    method ReadyAt(order: seq<TunnelId>, ds: Desired, newest: bool, grace: nat) returns (deadline: Option<nat>)
      requires forall id :: id in order ==> id in enforcers
      ensures deadline == Deadline(enforcers, order, ds, newest, grace)
    {
      deadline := None;
      for i := |order| downto 0
        invariant deadline == Deadline(enforcers, order[i..], ds, newest, grace)
      {
        assert order[i..][1..] == order[i + 1..];
        var e := enforcers[order[i]];
        if NeedsPolicyWrite(Version(e), ds.version, newest) {
          deadline := Later(ApplyReadyAt(e, grace), deadline);
        }
      }
      assert order[0..] == order;
    }

    method Install(order: seq<TunnelId>, ds: Desired, newest: bool, grace: nat, now: nat, broken: set<TunnelId>)
      returns (ok: bool)
      requires Covers(order, enforcers)
      modifies this
      ensures var a := Visit(old(enforcers), order, ds, newest, grace, now, broken);
              && enforcers == a.enforcers && ok == Success(a)
              && Covers(order, enforcers)
              && appliedVersion == (if ok && LiveMax(enforcers, order).Some? then LiveMax(enforcers, order)
                                    else old(appliedVersion))
    {
      var deferred, failed := false, false;
      var i := 0;
      while i < |order| && !failed
        invariant 0 <= i <= |order| && enforcers.Keys == old(enforcers).Keys
        invariant var a := Visit(old(enforcers), order, ds, newest, grace, now, broken);
                  if failed then a.enforcers == enforcers && a.failed
                  else
                    var rest := Visit(enforcers, order[i..], ds, newest, grace, now, broken);
                    && a.enforcers == rest.enforcers && a.failed == rest.failed
                    && a.deferred == (deferred || rest.deferred)
        invariant appliedVersion == old(appliedVersion)
        decreases |order| - i, !failed
      {
        var id := order[i];
        var e := enforcers[id];
        assert order[i..][1..] == order[i + 1..];
        if !NeedsPolicyWrite(Version(e), ds.version, newest) {
          i := i + 1;
        } else if !Ready(e, grace, now) {
          deferred := true;
          i := i + 1;
        } else if id in broken {
          enforcers := enforcers[id := Botched(e, now)];
          failed := true;
        } else {
          enforcers := enforcers[id := Written(e, ds, now)];
          i := i + 1;
        }
      }
      ok := !deferred && !failed;
      if ok && LiveMax(enforcers, order).Some? {
        appliedVersion := LiveMax(enforcers, order);
      }
    }
  }

  // ---- the worker's steps -----------------------------------------------

  datatype Phase =
    | Parked
    | Reading(ds: Desired)
    | Waiting(ds: Desired, until: Option<nat>)
    | Committed(ds: Desired)
    | Installing(ds: Desired, newest: bool)
    | Pausing(ds: Desired)

  /** `unseen`: something was published that the worker has not taken yet;
      `installed`: what the last complete install wrote. */
  datatype State = State(
    now: nat, mailbox: Option<Desired>, unseen: bool,
    phase: Phase, enforcers: Enforcers, gauge: Option<nat>, installed: Option<Desired>)

  function Initial(m: Enforcers): State {
    State(0, None, false, Parked, m, None, None)
  }

  datatype Event =
    | Tick(delta: nat)
    | Publish(ds: Desired)
    | Insert(id: TunnelId, twoSlot: bool)
    | Remove(id: TunnelId)
    | Wake
    | ReadDeadline(order: seq<TunnelId>)
    | ReadFailed
    | WaitOver
    | Sample
    | Install(order: seq<TunnelId>, broken: set<TunnelId>)
    | PauseElapsed
    | PauseAdopted

  predicate Enabled(s: State, e: Event) {
    match e
    case Tick(_) => true
    case Publish(_) => true
    case Insert(_, _) => s.mailbox.Some?
    case Remove(id) => id in s.enforcers && |s.enforcers| > 1
    case Wake => s.phase.Parked? && s.unseen && s.mailbox.Some?
    case ReadDeadline(order) => s.phase.Reading? && Covers(order, s.enforcers)
    case ReadFailed => s.phase.Reading?
    case WaitOver => s.phase.Waiting? && Passed(s.phase.until, s.now) && (s.unseen ==> s.mailbox.Some?)
    case Sample => s.phase.Committed?
    case Install(order, _) => s.phase.Installing? && Covers(order, s.enforcers)
    case PauseElapsed => s.phase.Pausing?
    case PauseAdopted => s.phase.Pausing? && s.unseen && s.mailbox.Some?
  }

  function Adopt(s: State): State
    requires s.mailbox.Some?
  {
    s.(phase := Reading(s.mailbox.value), unseen := false)
  }

  function Step(s: State, e: Event, grace: nat): State
    requires Enabled(s, e)
  {
    match e
    case Tick(delta) => s.(now := s.now + delta)
    case Publish(ds) => if s.mailbox == Some(ds) then s else s.(mailbox := Some(ds), unseen := true)
    case Insert(id, twoSlot) =>
      s.(enforcers := s.enforcers[id := Enforcer(s.mailbox, twoSlot, [G.Attempt(s.now, Some(s.now))])])
    case Remove(id) => s.(enforcers := s.enforcers - {id})
    case Wake => Adopt(s)
    case ReadDeadline(order) =>
      s.(phase := Waiting(s.phase.ds, Deadline(s.enforcers, order, s.phase.ds, !s.unseen, grace)))
    case ReadFailed => s.(phase := Pausing(s.phase.ds))
    case WaitOver => if s.unseen then Adopt(s) else s.(phase := Committed(s.phase.ds))
    case Sample => s.(phase := Installing(s.phase.ds, !s.unseen))
    case Install(order, broken) => Installed(s, order, broken, grace)
    case PauseElapsed => s.(phase := Reading(s.phase.ds))
    case PauseAdopted => Adopt(s)
  }

  function Installed(s: State, order: seq<TunnelId>, broken: set<TunnelId>, grace: nat): State
    requires s.phase.Installing? && Covers(order, s.enforcers)
  {
    var a := Visit(s.enforcers, order, s.phase.ds, s.phase.newest, grace, s.now, broken);
    VisitKeys(s.enforcers, order, s.phase.ds, s.phase.newest, grace, s.now, broken);
    var live := LiveMax(a.enforcers, order);
    if Success(a) then
      s.(enforcers := a.enforcers, phase := Parked, gauge := if live.Some? then live else s.gauge,
         installed := Some(s.phase.ds))
    else s.(enforcers := a.enforcers, phase := Pausing(s.phase.ds))
  }

  ghost predicate ValidRun(m: Enforcers, events: seq<Event>, grace: nat)
    decreases |events|, 0
  {
    events == [] ||
    var before := events[..|events| - 1];
    ValidRun(m, before, grace) && Enabled(After(m, before, grace), events[|events| - 1])
  }

  ghost function After(m: Enforcers, events: seq<Event>, grace: nat): State
    requires ValidRun(m, events, grace)
    decreases |events|, 1
  {
    if events == [] then Initial(m)
    else Step(After(m, events[..|events| - 1], grace), events[|events| - 1], grace)
  }

  // ---- convergence ------------------------------------------------------

  predicate AllAt(m: Enforcers, v: nat) {
    forall id :: id in m ==> Version(m[id]) == Some(v)
  }

  /** With nothing unseen the worker holds the mailbox's own value, an install
      under way knows it is the newest, and a parked worker has converged. */
  predicate Coherent(s: State) {
    && s.enforcers != map[]
    && (s.unseen ==> s.mailbox.Some?)
    && (!s.phase.Parked? ==> s.mailbox.Some?)
    && (!s.unseen ==>
          match s.phase
          case Parked => s.mailbox.Some? ==> AllAt(s.enforcers, s.mailbox.value.version)
                                             && s.gauge == Some(s.mailbox.value.version)
                                             && s.installed == s.mailbox
          case Installing(ds, newest) => newest && s.mailbox == Some(ds)
          case _ => s.mailbox == Some(s.phase.ds))
  }

  lemma InstallConverges(s: State, order: seq<TunnelId>, broken: set<TunnelId>, grace: nat)
    requires Coherent(s) && Enabled(s, Install(order, broken))
    ensures Coherent(Installed(s, order, broken, grace))
  {
    var ds, newest := s.phase.ds, s.phase.newest;
    var a := Visit(s.enforcers, order, ds, newest, grace, s.now, broken);
    VisitKeys(s.enforcers, order, ds, newest, grace, s.now, broken);
    forall id | id in s.enforcers
      ensures Success(a) ==> !NeedsPolicyWrite(Version(a.enforcers[id]), ds.version, newest)
    {
      VisitEffect(s.enforcers, order, ds, newest, grace, s.now, broken, id);
    }
    var some :| some in s.enforcers;
    assert some in order;
    if !s.unseen && Success(a) {
      LiveMaxUniform(a.enforcers, order, ds.version);
    }
  }

  lemma SetShrinksButStays(m: Enforcers, id: TunnelId)
    requires id in m && |m| > 1
    ensures m - {id} != map[]
  {
    assert (m - {id}).Keys == m.Keys - {id};
    assert |m.Keys - {id}| == |m.Keys| - 1;
  }

  lemma CoherentStep(s: State, e: Event, grace: nat)
    requires Coherent(s) && Enabled(s, e)
    ensures Coherent(Step(s, e, grace))
  {
    match e
    case Install(order, broken) => InstallConverges(s, order, broken, grace);
    case Remove(id) => SetShrinksButStays(s.enforcers, id);
    case Insert(id, _) => assert id in Step(s, e, grace).enforcers;
    case _ =>
  }

  lemma {:induction false} RunIsCoherent(m: Enforcers, events: seq<Event>, grace: nat)
    requires m != map[] && ValidRun(m, events, grace)
    ensures Coherent(After(m, events, grace))
  {
    if events == [] {
    } else {
      var before := events[..|events| - 1];
      RunIsCoherent(m, before, grace);
      CoherentStep(After(m, before, grace), events[|events| - 1], grace);
    }
  }

  /** The worker never settles short: whenever it is parked with nothing left to
      take, the state it last installed is the mailbox's own, every enforcer in
      the map, including those rotations added along the way, is at that version,
      and so is the reported gauge. */
  lemma ParkedMeansConverged(m: Enforcers, events: seq<Event>, grace: nat)
    requires m != map[] && ValidRun(m, events, grace)
    ensures var s := After(m, events, grace);
            s.phase.Parked? && !s.unseen && s.mailbox.Some? ==>
              && AllAt(s.enforcers, s.mailbox.value.version) && s.gauge == Some(s.mailbox.value.version)
              && s.installed == s.mailbox
  {
    RunIsCoherent(m, events, grace);
  }

  /** And it never parks on a missed publish: a parked worker with work pending
      can always take it. */
  lemma PublishedIsTaken(m: Enforcers, events: seq<Event>, ds: Desired, grace: nat)
    requires m != map[] && ValidRun(m, events, grace)
    requires After(m, events, grace).phase.Parked?
    requires !AllAt(After(m, events, grace).enforcers, ds.version)
    ensures var s := Step(After(m, events, grace), Publish(ds), grace);
            Enabled(s, Wake) && Step(s, Wake, grace).phase == Reading(ds)
  {
    RunIsCoherent(m, events, grace);
  }

  // ---- the reap grace ---------------------------------------------------

  /** A two-slot enforcer is never written within the grace of a flip before. */
  predicate Spaced(e: Enforcer, grace: nat, now: nat) {
    && (forall i :: 0 <= i < |e.attempts| && e.attempts[i].flippedAt.Some? ==> e.attempts[i].flippedAt.value <= now)
    && (forall i, j :: 0 <= i < j < |e.attempts| && e.attempts[i].flippedAt.Some? && e.attempts[j].flippedAt.Some? ==>
          e.attempts[i].flippedAt.value <= e.attempts[j].flippedAt.value)
    && (e.twoSlot ==> G.WaitsOutGrace(e.attempts, grace))
  }

  predicate AllSpaced(s: State, grace: nat) {
    forall id :: id in s.enforcers ==> Spaced(s.enforcers[id], grace, s.now)
  }

  lemma {:induction false} LastFlipIsLatest(log: seq<G.Attempt>, i: nat)
    requires i < |log| && log[i].flippedAt.Some?
    requires forall i, j :: 0 <= i < j < |log| && log[i].flippedAt.Some? && log[j].flippedAt.Some? ==>
               log[i].flippedAt.value <= log[j].flippedAt.value
    ensures LastFlip(log).Some? && log[i].flippedAt.value <= LastFlip(log).value
    decreases |log|
  {
    if log[|log| - 1].flippedAt.Some? {
    } else {
      LastFlipIsLatest(log[..|log| - 1], i);
    }
  }

  /** The deadline covers every earlier flip, so an attempt made past it, failed
      or not, keeps the spacing. */
  lemma AttemptSpaced(e: Enforcer, attempt: G.Attempt, grace: nat, now: nat)
    requires Spaced(e, grace, now) && Ready(e, grace, now)
    requires attempt.startedAt == now && (attempt.flippedAt.Some? ==> attempt.flippedAt.value == now)
    ensures Spaced(e.(attempts := e.attempts + [attempt]), grace, now)
  {
    var log := e.attempts + [attempt];
    forall i | 0 <= i < |e.attempts| && e.attempts[i].flippedAt.Some?
      ensures e.twoSlot ==> e.attempts[i].flippedAt.value + grace <= now
    {
      LastFlipIsLatest(e.attempts, i);
    }
    assert forall i :: 0 <= i < |e.attempts| ==> log[i] == e.attempts[i];
  }

  lemma EntrySpaced(e: Enforcer, e': Enforcer, ds: Desired, newest: bool, grace: nat, now: nat)
    requires Spaced(e, grace, now) && EntryEffect(e, e', ds, newest, grace, now)
    ensures Spaced(e', grace, now)
  {
    if e' == Written(e, ds, now) && e' != e {
      AttemptSpaced(e, G.Attempt(now, Some(now)), grace, now);
      assert Spaced(e.(attempts := e'.attempts), grace, now);
    } else if e' != e {
      AttemptSpaced(e, G.Attempt(now, None), grace, now);
    }
  }

  lemma SpacedStep(s: State, e: Event, grace: nat)
    requires AllSpaced(s, grace) && Enabled(s, e)
    ensures AllSpaced(Step(s, e, grace), grace)
  {
    var s' := Step(s, e, grace);
    if e.Install? {
      var ds, newest := s.phase.ds, s.phase.newest;
      VisitKeys(s.enforcers, e.order, ds, newest, grace, s.now, e.broken);
      forall id | id in s'.enforcers ensures Spaced(s'.enforcers[id], grace, s'.now) {
        VisitEffect(s.enforcers, e.order, ds, newest, grace, s.now, e.broken, id);
        EntrySpaced(s.enforcers[id], s'.enforcers[id], ds, newest, grace, s.now);
      }
    } else {
      forall id | id in s'.enforcers ensures Spaced(s'.enforcers[id], grace, s'.now) {
      }
    }
  }

  /** Over any run, whatever publishes, rotations and failures do to it, no slot
      of a two-slot enforcer is overwritten, even by an apply that then fails,
      within the grace of any flip before. This is what `Generations` asks of the
      applies of one enforcer (`HonourIsSpacing`). */
  lemma {:induction false} WritesWaitOutGrace(m: Enforcers, events: seq<Event>, grace: nat)
    requires ValidRun(m, events, grace) && forall id :: id in m ==> m[id].attempts == []
    ensures AllSpaced(After(m, events, grace), grace)
    ensures var s := After(m, events, grace);
            forall id :: id in s.enforcers && s.enforcers[id].twoSlot ==>
              G.WaitsOutGrace(s.enforcers[id].attempts, grace)
  {
    if events == [] {
    } else {
      var before := events[..|events| - 1];
      WritesWaitOutGrace(m, before, grace);
      SpacedStep(After(m, before, grace), events[|events| - 1], grace);
    }
  }

  // ---- what is actually in force ----------------------------------------

  /** Exact: a complete install of the newest state leaves an entry with that
      state, except that one already at its version keeps what it has. */
  lemma {:induction false} InstallWritesExactly(m: Enforcers, order: seq<TunnelId>, ds: Desired,
                                                grace: nat, now: nat, broken: set<TunnelId>, id: TunnelId)
    requires (forall id :: id in order ==> id in m) && id in m && id in order
    requires Success(Visit(m, order, ds, true, grace, now, broken))
    ensures var a := Visit(m, order, ds, true, grace, now, broken);
            && id in a.enforcers
            && a.enforcers[id].applied == if Version(m[id]) == Some(ds.version) then m[id].applied else Some(ds)
    decreases |order|
  {
    var first, e, rest := order[0], m[order[0]], order[1..];
    if !NeedsPolicyWrite(Version(e), ds.version, true) {
      if id in rest {
        InstallWritesExactly(m, rest, ds, grace, now, broken, id);
      } else {
        VisitEffect(m, rest, ds, true, grace, now, broken, id);
      }
    } else {
      var m' := m[first := Written(e, ds, now)];
      if id in rest {
        InstallWritesExactly(m', rest, ds, grace, now, broken, id);
      } else {
        VisitEffect(m', rest, ds, true, grace, now, broken, id);
      }
    }
  }

  /** Everything that was ever published. */
  function Published(events: seq<Event>): set<Desired> {
    set i | 0 <= i < |events| && events[i].Publish? :: events[i].ds
  }

  predicate OnlyFrom(s: State, known: set<Desired>) {
    && (s.mailbox.Some? ==> s.mailbox.value in known)
    && (!s.phase.Parked? ==> s.phase.ds in known)
    && (forall id :: id in s.enforcers && s.enforcers[id].applied.Some? ==> s.enforcers[id].applied.value in known)
  }

  lemma OnlyFromStep(s: State, e: Event, grace: nat, known: set<Desired>)
    requires Enabled(s, e) && OnlyFrom(s, known) && (e.Publish? ==> e.ds in known)
    ensures OnlyFrom(Step(s, e, grace), known)
  {
    if e.Install? {
      VisitKeys(s.enforcers, e.order, s.phase.ds, s.phase.newest, grace, s.now, e.broken);
      forall id | id in s.enforcers
        ensures var a := Step(s, e, grace).enforcers[id].applied; a.Some? ==> a.value in known
      {
        VisitEffect(s.enforcers, e.order, s.phase.ds, s.phase.newest, grace, s.now, e.broken, id);
      }
    }
  }

  lemma {:induction false} NothingInvented(m: Enforcers, events: seq<Event>, grace: nat, known: set<Desired>)
    requires ValidRun(m, events, grace) && forall id :: id in m ==> m[id].applied.None?
    requires Published(events) <= known
    ensures OnlyFrom(After(m, events, grace), known)
  {
    if events == [] {
    } else {
      var before, e := events[..|events| - 1], events[|events| - 1];
      assert Published(before) <= Published(events);
      assert e.Publish? ==> e.ds in Published(events);
      NothingInvented(m, before, grace, known);
      OnlyFromStep(After(m, before, grace), e, grace, known);
    }
  }

  /** A version number stands for one policy throughout the run. */
  predicate VersionNamesPolicy(events: seq<Event>) {
    forall a, b :: a in Published(events) && b in Published(events) && a.version == b.version ==> a.ir == b.ir
  }

  /** Then a parked worker has put the mailbox's own policy in force everywhere. */
  lemma ParkedPolicyIsPublished(m: Enforcers, events: seq<Event>, grace: nat, id: TunnelId)
    requires m != map[] && ValidRun(m, events, grace) && forall id :: id in m ==> m[id].applied.None?
    requires VersionNamesPolicy(events)
    requires var s := After(m, events, grace); s.phase.Parked? && !s.unseen && s.mailbox.Some? && id in s.enforcers
    ensures var s := After(m, events, grace);
            s.enforcers[id].applied.Some? && s.enforcers[id].applied.value.ir == s.mailbox.value.ir
  {
    ParkedMeansConverged(m, events, grace);
    NothingInvented(m, events, grace, Published(events));
    var s := After(m, events, grace);
    assert Version(s.enforcers[id]) == Some(s.mailbox.value.version);
  }

  lemma Extend(m: Enforcers, events: seq<Event>, s: State, e: Event, grace: nat)
    returns (longer: seq<Event>, s': State)
    requires ValidRun(m, events, grace) && s == After(m, events, grace) && Enabled(s, e)
    ensures ValidRun(m, longer, grace) && s' == After(m, longer, grace) == Step(s, e, grace)
  {
    longer := events + [e];
    assert longer[..|longer| - 1] == events;
    s' := Step(s, e, grace);
  }

  lemma {:induction false} NothingNeeded(m: Enforcers, order: seq<TunnelId>, ds: Desired, grace: nat, now: nat)
    requires forall id :: id in order ==> id in m && Version(m[id]) == Some(ds.version)
    ensures Visit(m, order, ds, true, grace, now, {}) == Attempt(m, false, false)
    ensures Deadline(m, order, ds, true, grace) == None
  {
    if order == [] {
    } else {
      NothingNeeded(m, order[1..], ds, grace, now);
    }
  }

  /** Without it: a different policy published under the version in force is taken,
      reported as installed, and written nowhere. */
  lemma ReusedVersionIsNotWritten(m: Enforcers, events: seq<Event>, order: seq<TunnelId>, ds: Desired, grace: nat)
    returns (longer: seq<Event>)
    requires m != map[] && ValidRun(m, events, grace)
    requires var s := After(m, events, grace);
             && s.phase.Parked? && !s.unseen && s.mailbox.Some? && s.mailbox != Some(ds)
             && s.mailbox.value.version == ds.version && Covers(order, s.enforcers)
    ensures ValidRun(m, longer, grace)
    ensures var s, s' := After(m, events, grace), After(m, longer, grace);
            s'.phase.Parked? && !s'.unseen && s'.mailbox == s'.installed == Some(ds) && s'.enforcers == s.enforcers
  {
    ParkedMeansConverged(m, events, grace);
    var s := After(m, events, grace);
    var start := s.enforcers;
    NothingNeeded(start, order, ds, grace, s.now);
    longer, s := Extend(m, events, s, Publish(ds), grace);
    longer, s := Extend(m, longer, s, Wake, grace);
    longer, s := Extend(m, longer, s, ReadDeadline(order), grace);
    longer, s := Extend(m, longer, s, WaitOver, grace);
    longer, s := Extend(m, longer, s, Sample, grace);
    longer, s := Extend(m, longer, s, Install(order, {}), grace);
  }

  /** One tunnel that has never been written to. */
  function OneTunnel(): (m: Enforcers)
    ensures 0 in m
  {
    map[0 := Enforcer(None, false, [])]
  }

  /** The first publish, taken up to the point of installing it. */
  lemma FirstSampled(one: Desired, grace: nat) returns (events: seq<Event>, s: State)
    ensures ValidRun(OneTunnel(), events, grace) && s == After(OneTunnel(), events, grace)
    ensures s == State(0, Some(one), false, Installing(one, true), OneTunnel(), None, None)
  {
    var m := OneTunnel();
    var order: seq<TunnelId> := [0];
    assert order[1..] == [];
    s := Initial(m);
    events, s := Extend(m, [], s, Publish(one), grace);
    events, s := Extend(m, events, s, Wake, grace);
    assert Deadline(m, order, one, true, grace) == None;
    events, s := Extend(m, events, s, ReadDeadline(order), grace);
    events, s := Extend(m, events, s, WaitOver, grace);
    events, s := Extend(m, events, s, Sample, grace);
  }

  lemma FirstInstalled(one: Desired, grace: nat) returns (events: seq<Event>, s: State)
    ensures ValidRun(OneTunnel(), events, grace) && s == After(OneTunnel(), events, grace)
    ensures s.phase.Parked? && !s.unseen && s.mailbox == Some(one)
    ensures s.enforcers.Keys == {0} && s.enforcers[0].applied == Some(one)
  {
    events, s := FirstSampled(one, grace);
    var order: seq<TunnelId> := [0];
    assert order[1..] == [];
    assert Visit(OneTunnel(), order, one, true, grace, 0, {}) ==
           Attempt(OneTunnel()[0 := Written(OneTunnel()[0], one, 0)], false, false);
    events, s := Extend(OneTunnel(), events, s, Install(order, {}), grace);
  }

  /** Then another under the same version: the worker parks with the one reported as
      installed and the other in force. */
  lemma OtherContentIsNotWritten(one: Desired, other: Desired, grace: nat) returns (events: seq<Event>)
    requires one != other && one.version == other.version
    ensures ValidRun(OneTunnel(), events, grace)
    ensures var s := After(OneTunnel(), events, grace);
            && s.phase.Parked? && !s.unseen && s.mailbox == s.installed == Some(other)
            && 0 in s.enforcers && s.enforcers[0].applied == Some(one)
  {
    var s: State;
    events, s := FirstInstalled(one, grace);
    events := ReusedVersionIsNotWritten(OneTunnel(), events, [0], other, grace);
  }

  // ---- downgrades -------------------------------------------------------

  predicate Lowered(e: Enforcer, e': Enforcer) {
    Version(e).Some? && (Version(e').None? || Version(e').value < Version(e).value)
  }

  /** An install lowers a version only on a sample that said nothing newer had
      been published; and as long as that is still so, what it writes is the
      mailbox's own value, a rollback the controller asked for. */
  lemma OnlyRollbacksLower(m: Enforcers, events: seq<Event>, order: seq<TunnelId>, broken: set<TunnelId>,
                           grace: nat, id: TunnelId)
    requires m != map[] && ValidRun(m, events, grace)
    requires Enabled(After(m, events, grace), Install(order, broken))
    requires id in After(m, events, grace).enforcers
    ensures var s := After(m, events, grace);
            var s' := Step(s, Install(order, broken), grace);
            && id in s'.enforcers
            && (Lowered(s.enforcers[id], s'.enforcers[id]) ==>
                  s.phase.newest && (!s.unseen ==> s.mailbox == Some(s.phase.ds)))
  {
    RunIsCoherent(m, events, grace);
    var s := After(m, events, grace);
    VisitEffect(s.enforcers, order, s.phase.ds, s.phase.newest, grace, s.now, broken, id);
  }

  /** The remaining window is real: a publish and an insert that both land
      between the sample and the install leave the new tunnel, on a backend
      without deadlines, one version behind, until the worker takes the publish. */
  lemma SampleCanGoStale(grace: nat) returns (events: seq<Event>)
    ensures ValidRun(OneTunnel(), events, grace)
    ensures var s := After(OneTunnel(), events, grace);
            && s.mailbox == Some(Desired(2, 0, 0)) && s.unseen && s.phase.Parked?
            && 1 in s.enforcers && Version(s.enforcers[1]) == Some(1)
  {
    var m, one, two := OneTunnel(), Desired(1, 0, 0), Desired(2, 0, 0);
    var s: State;
    events, s := FirstSampled(one, grace);
    events, s := Extend(m, events, s, Publish(two), grace);
    events, s := Extend(m, events, s, Insert(1, false), grace);
    StaleInstall(s, grace);
    events, s := Extend(m, events, s, Install([0, 1], {}), grace);
  }

  lemma StaleInstall(s: State, grace: nat)
    requires s == State(0, Some(Desired(2, 0, 0)), true, Installing(Desired(1, 0, 0), true),
                        map[0 := Enforcer(None, false, []),
                            1 := Enforcer(Some(Desired(2, 0, 0)), false, [G.Attempt(0, Some(0))])], None, None)
    ensures Enabled(s, Install([0, 1], {}))
    ensures var s' := Step(s, Install([0, 1], {}), grace);
            && s'.mailbox == s.mailbox && s'.unseen && s'.phase.Parked?
            && 1 in s'.enforcers && Version(s'.enforcers[1]) == Some(1)
  {
    var order: seq<TunnelId> := [0, 1];
    assert Covers(order, s.enforcers) by {
      assert forall id :: id in order <==> id == 0 || id == 1;
    }
    var ds := Desired(1, 0, 0);
    var m1 := s.enforcers[0 := Written(s.enforcers[0], ds, 0)];
    assert order[1..] == [1] && [1][1..] == [];
    assert Visit(s.enforcers, order, ds, true, grace, 0, {}) == Visit(m1, [1], ds, true, grace, 0, {});
    assert Visit(m1, [1], ds, true, grace, 0, {}) == Attempt(m1[1 := Written(m1[1], ds, 0)], false, false);
  }
}
