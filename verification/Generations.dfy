/** Two-slot policy generations under live traffic. A packet reads the active
    slot number once and then the slot's four maps one by one; an apply writes
    the four maps of the other slot one by one and then flips. */
module Generations {
  import opened Outcomes

  /** Which apply each of a slot's maps came from. */
  datatype Slot = Slot(src: nat, dst: nat, rules: nat, meta: nat)

  predicate Whole(s: Slot, gen: nat) {
    s.src == gen && s.dst == gen && s.rules == gen && s.meta == gen
  }

  datatype PendingReap = PendingReap(slot: nat, flippedAt: nat)

  /** `done` counts the maps installed so far. */
  datatype Writer = Idle | Installing(gen: nat, done: nat)

  /** A packet under evaluation; `born` is the generation active when it read
      the slot number, `seen` the generations of the maps it has read. */
  datatype Packet = Packet(slot: nat, since: nat, born: nat, seen: seq<nat>)

  datatype State = State(
    now: nat, active: nat, slots: seq<Slot>, live: nat, applies: nat,
    pending: Option<PendingReap>, writer: Writer, packets: seq<Packet>)

  /** Before the first apply both slots are empty: generation zero. */
  function Initial(): State {
    State(0, 0, [Slot(0, 0, 0, 0), Slot(0, 0, 0, 0)], 0, 0, None, Idle, [])
  }

  function Target(s: State): nat {
    if s.active == 0 then 1 else 0
  }

  function ReadyAt(s: State, grace: nat): Option<nat> {
    match s.pending
    case Some(p) => Some(p.flippedAt + grace)
    case None => None
  }

  datatype Event =
    | Tick(delta: nat)
    | Arrive
    | ReadMap(i: nat, which: nat)
    | Leave(i: nat)
    | BeginApply
    | InstallMap
    | AbandonApply
    | Flip

  function MapAt(s: Slot, which: nat): nat {
    if which == 0 then s.src else if which == 1 then s.dst else if which == 2 then s.rules else s.meta
  }

  function WithMap(s: Slot, which: nat, gen: nat): Slot {
    if which == 0 then s.(src := gen)
    else if which == 1 then s.(dst := gen)
    else if which == 2 then s.(rules := gen)
    else s.(meta := gen)
  }

  /** What can happen next. Time never lets a packet live `life` long, and an
      apply waits for the deadline the last flip published when `honour`. */
  ghost predicate Enabled(s: State, e: Event, life: nat, grace: nat, honour: bool) {
    match e
    case Tick(delta) => forall i :: 0 <= i < |s.packets| ==> s.now + delta < s.packets[i].since + life
    case Arrive => life > 0
    case ReadMap(i, which) => i < |s.packets| && s.packets[i].slot < |s.slots|
    case Leave(i) => i < |s.packets|
    case BeginApply => s.writer.Idle? && (honour && s.pending.Some? ==> ReadyAt(s, grace).value <= s.now)
    case InstallMap => s.writer.Installing? && s.writer.done < 4 && |s.slots| == 2
    case AbandonApply => s.writer.Installing?
    case Flip => s.writer.Installing? && s.writer.done == 4
  }

  ghost function Step(s: State, e: Event, life: nat, grace: nat, honour: bool): State
    requires Enabled(s, e, life, grace, honour)
  {
    match e
    case Tick(delta) => s.(now := s.now + delta)
    case Arrive => s.(packets := s.packets + [Packet(s.active, s.now, s.live, [])])
    case ReadMap(i, which) =>
      var p := s.packets[i];
      s.(packets := s.packets[i := p.(seen := p.seen + [MapAt(s.slots[p.slot], which)])])
    case Leave(i) => s.(packets := s.packets[..i] + s.packets[i + 1..])
    case BeginApply => s.(writer := Installing(s.applies + 1, 0), applies := s.applies + 1)
    case InstallMap =>
      var t := Target(s);
      s.(slots := s.slots[t := WithMap(s.slots[t], s.writer.done, s.writer.gen)],
         writer := s.writer.(done := s.writer.done + 1))
    case AbandonApply => s.(writer := Idle)
    case Flip =>
      s.(active := Target(s), live := s.writer.gen, writer := Idle,
         pending := Some(PendingReap(s.active, s.now)))
  }

  ghost predicate ValidRun(events: seq<Event>, life: nat, grace: nat, honour: bool)
    decreases |events|, 0
  {
    events == [] ||
    var before := events[..|events| - 1];
    && ValidRun(before, life, grace, honour)
    && Enabled(After(before, life, grace, honour), events[|events| - 1], life, grace, honour)
  }

  ghost function After(events: seq<Event>, life: nat, grace: nat, honour: bool): State
    requires ValidRun(events, life, grace, honour)
    decreases |events|, 1
  {
    if events == [] then Initial()
    else Step(After(events[..|events| - 1], life, grace, honour), events[|events| - 1], life, grace, honour)
  }

  // ---- the invariant ----------------------------------------------------

  predicate WriterSound(s: State)
    requires |s.slots| == 2
  {
    match s.writer
    case Idle => true
    case Installing(gen, done) =>
      var t := s.slots[Target(s)];
      && done <= 4 && gen == s.applies
      && (done > 0 ==> t.src == gen) && (done > 1 ==> t.dst == gen)
      && (done > 2 ==> t.rules == gen) && (done > 3 ==> t.meta == gen)
  }

  predicate SlotsSound(s: State)
    requires |s.slots| == 2
  {
    && s.active < 2 && s.live <= s.applies
    && Whole(s.slots[s.active], s.live)
    && (s.pending.Some? ==> s.pending.value.slot == Target(s) && s.pending.value.flippedAt <= s.now)
    && WriterSound(s)
  }

  /** A packet's own slot is intact; unless it is the active one, the packet
      entered it before the last flip. */
  predicate PacketSound(s: State, p: Packet, life: nat)
    requires |s.slots| == 2
  {
    && p.slot < 2 && p.since <= s.now < p.since + life
    && Whole(s.slots[p.slot], p.born)
    && (forall k :: 0 <= k < |p.seen| ==> p.seen[k] == p.born)
    && (p.slot != s.active ==>
          && s.pending.Some? && p.since <= s.pending.value.flippedAt
          && s.writer.Idle?)
  }

  ghost predicate Sound(s: State, life: nat) {
    && |s.slots| == 2 && SlotsSound(s)
    && forall i :: 0 <= i < |s.packets| ==> PacketSound(s, s.packets[i], life)
  }

  /** The deadline does its job: by the time an apply may start, nothing is left
      in the slot it is about to overwrite. */
  lemma DeadlineDrainsSlot(s: State, life: nat, grace: nat, i: nat)
    requires Sound(s, life) && life <= grace
    requires Enabled(s, BeginApply, life, grace, true)
    requires i < |s.packets|
    ensures s.packets[i].slot == s.active
  {
    assert PacketSound(s, s.packets[i], life);
  }

  /** The slots need no deadline: whatever applies do, when they do it. */
  lemma SlotsStep(s: State, e: Event, life: nat, grace: nat, honour: bool)
    requires |s.slots| == 2 && SlotsSound(s) && Enabled(s, e, life, grace, honour)
    ensures var s' := Step(s, e, life, grace, honour); |s'.slots| == 2 && SlotsSound(s')
  {
  }

  lemma PacketStep(s: State, e: Event, life: nat, grace: nat, p: Packet)
    requires Sound(s, life) && Enabled(s, e, life, grace, true) && life <= grace
    requires p in s.packets && PacketSound(s, p, life) && !e.ReadMap?
    ensures var s' := Step(s, e, life, grace, true); |s'.slots| == 2 && PacketSound(s', p, life)
  {
    var i :| 0 <= i < |s.packets| && s.packets[i] == p;
    if e.BeginApply? {
      DeadlineDrainsSlot(s, life, grace, i);
    }
  }

  lemma SoundStep(s: State, e: Event, life: nat, grace: nat)
    requires Sound(s, life) && Enabled(s, e, life, grace, true) && life <= grace
    ensures Sound(Step(s, e, life, grace, true), life)
  {
    SlotsStep(s, e, life, grace, true);
    var s' := Step(s, e, life, grace, true);
    forall i | 0 <= i < |s'.packets| ensures PacketSound(s', s'.packets[i], life) {
      if e.ReadMap? {
        assert PacketSound(s, s.packets[i], life);
      } else if e.Arrive? && i == |s.packets| {
        assert s'.packets[i] == Packet(s.active, s.now, s.live, []);
      } else {
        assert s'.packets[i] in s.packets;
        PacketStep(s, e, life, grace, s'.packets[i]);
      }
    }
  }

  lemma {:induction false} RunIsSound(events: seq<Event>, life: nat, grace: nat)
    requires ValidRun(events, life, grace, true) && life <= grace
    ensures Sound(After(events, life, grace, true), life)
  {
    if events == [] {
    } else {
      var before := events[..|events| - 1];
      RunIsSound(before, life, grace);
      SoundStep(After(before, life, grace, true), events[|events| - 1], life, grace);
    }
  }

  /** No packet straddles two generations: over any run in which applies wait
      out the published grace and no packet outlives it, every map a packet has
      read belongs to the generation that was active when it arrived. */
  lemma NoPacketStraddles(events: seq<Event>, life: nat, grace: nat, i: nat)
    requires ValidRun(events, life, grace, true) && life <= grace
    requires i < |After(events, life, grace, true).packets|
    ensures var p := After(events, life, grace, true).packets[i];
            forall k :: 0 <= k < |p.seen| ==> p.seen[k] == p.born
  {
    RunIsSound(events, life, grace);
    var s := After(events, life, grace, true);
    assert PacketSound(s, s.packets[i], life);
  }

  /** The active slot always holds one whole generation and the slot pending reap
      is the one the next apply will overwrite: over every run of applies, failed
      ones included, whether or not they wait for the deadline. */
  lemma {:induction false} ActiveIsWhole(events: seq<Event>, life: nat, grace: nat, honour: bool)
    requires ValidRun(events, life, grace, honour)
    ensures var s := After(events, life, grace, honour);
            && |s.slots| == 2 && SlotsSound(s)
            && s.active < 2 && Whole(s.slots[s.active], s.live)
            && (s.pending.Some? ==> s.pending.value.slot == Target(s))
  {
    if events == [] {
    } else {
      var before := events[..|events| - 1];
      ActiveIsWhole(before, life, grace, honour);
      SlotsStep(After(before, life, grace, honour), events[|events| - 1], life, grace, honour);
    }
  }

  // ---- the grace is needed ----------------------------------------------

  lemma Extend(events: seq<Event>, s: State, e: Event, life: nat, grace: nat, honour: bool)
    returns (longer: seq<Event>, s': State)
    requires ValidRun(events, life, grace, honour) && s == After(events, life, grace, honour)
    requires Enabled(s, e, life, grace, honour)
    ensures ValidRun(longer, life, grace, honour)
    ensures s' == After(longer, life, grace, honour) == Step(s, e, life, grace, honour)
  {
    longer := events + [e];
    assert longer[..|longer| - 1] == events;
    s' := Step(s, e, life, grace, honour);
  }

  /** A whole apply, all four maps and the flip. */
  lemma RunApply(events: seq<Event>, s: State, life: nat, grace: nat, honour: bool)
    returns (longer: seq<Event>, s': State)
    requires ValidRun(events, life, grace, honour) && s == After(events, life, grace, honour)
    requires |s.slots| == 2 && Enabled(s, BeginApply, life, grace, honour)
    ensures ValidRun(longer, life, grace, honour) && s' == After(longer, life, grace, honour)
    ensures s'.packets == s.packets && s'.applies == s.applies + 1 && s'.active == Target(s) && s'.writer.Idle?
    ensures s'.now == s.now && s'.pending == Some(PendingReap(s.active, s.now))
    ensures |s'.slots| == 2 && Whole(s'.slots[Target(s)], s.applies + 1)
    ensures forall k :: 0 <= k < 2 && k != Target(s) ==> s'.slots[k] == s.slots[k]
  {
    longer, s' := Extend(events, s, BeginApply, life, grace, honour);
    longer, s' := Extend(longer, s', InstallMap, life, grace, honour);
    longer, s' := Extend(longer, s', InstallMap, life, grace, honour);
    longer, s' := Extend(longer, s', InstallMap, life, grace, honour);
    longer, s' := Extend(longer, s', InstallMap, life, grace, honour);
    longer, s' := Extend(longer, s', Flip, life, grace, honour);
  }

  /** A packet has read one map of the empty generation when an apply flips. */
  lemma PacketCaught(life: nat, grace: nat, honour: bool) returns (events: seq<Event>, s: State)
    requires life > 0
    ensures ValidRun(events, life, grace, honour) && s == After(events, life, grace, honour)
    ensures s.packets == [Packet(0, 0, 0, [0])] && s.now == 0 && s.active == 1 && s.applies == 1
    ensures |s.slots| == 2 && s.writer.Idle? && s.pending == Some(PendingReap(0, 0))
  {
    s := Initial();
    events, s := Extend([], s, Arrive, life, grace, honour);
    events, s := Extend(events, s, ReadMap(0, 0), life, grace, honour);
    assert s.packets[0].seen == [] + [0] == [0];
    events, s := RunApply(events, s, life, grace, honour);
  }

  /** An apply that overwrites the slot under a packet in flight: the packet reads
      its sources from one generation and its destinations from another. It takes
      either an apply that ignores the deadline or a packet that outlives it. */
  lemma PacketCanStraddle(life: nat, grace: nat, honour: bool) returns (events: seq<Event>)
    requires life > 0 && (honour ==> life > grace)
    ensures ValidRun(events, life, grace, honour)
    ensures After(events, life, grace, honour).packets == [Packet(0, 0, 0, [0, 2])]
  {
    var s: State;
    events, s := PacketCaught(life, grace, honour);
    if honour {
      events, s := Extend(events, s, Tick(grace), life, grace, honour);
    }
    assert Target(s) == 0;
    events, s := RunApply(events, s, life, grace, honour);
    events, s := Extend(events, s, ReadMap(0, 1), life, grace, honour);
    assert s.packets[0].seen == [0] + [2] == [0, 2];
  }

  predicate NoneStraddles(s: State) {
    forall i, k :: 0 <= i < |s.packets| && 0 <= k < |s.packets[i].seen| ==> s.packets[i].seen[k] == s.packets[i].born
  }

  /** Exact: with applies that honour the deadline, no run ever lets a packet
      straddle iff no packet may outlive the grace. */
  lemma NoStraddleIff(life: nat, grace: nat)
    ensures (forall events :: ValidRun(events, life, grace, true) ==> NoneStraddles(After(events, life, grace, true)))
            <==> life <= grace
  {
    if life <= grace {
      forall events | ValidRun(events, life, grace, true) ensures NoneStraddles(After(events, life, grace, true)) {
        var s := After(events, life, grace, true);
        forall i | 0 <= i < |s.packets|
          ensures forall k :: 0 <= k < |s.packets[i].seen| ==> s.packets[i].seen[k] == s.packets[i].born
        {
          NoPacketStraddles(events, life, grace, i);
        }
      }
    } else {
      var events := PacketCanStraddle(life, grace, true);
      var p := After(events, life, grace, true).packets[0];
      assert p == Packet(0, 0, 0, [0, 2]) && p.seen[1] != p.born;
    }
  }

  // ---- honouring the deadline, seen from the outside --------------------

  /** One apply as its caller sees it: when it began to write, and when it flipped
      if it got that far. */
  datatype Attempt = Attempt(startedAt: nat, flippedAt: Option<nat>)

  /** No apply begins to overwrite within the grace of any earlier flip. */
  predicate WaitsOutGrace(log: seq<Attempt>, grace: nat) {
    forall i, j :: 0 <= i < j < |log| && log[i].flippedAt.Some? ==> log[i].flippedAt.value + grace <= log[j].startedAt
  }

  /** The applies of a run, in order. */
  ghost function Attempts(events: seq<Event>, life: nat, grace: nat): (log: seq<Attempt>)
    requires ValidRun(events, life, grace, false)
  {
    if events == [] then []
    else
      var before := events[..|events| - 1];
      Logged(After(before, life, grace, false), Attempts(before, life, grace), events[|events| - 1])
  }

  function Logged(s: State, log: seq<Attempt>, e: Event): seq<Attempt> {
    match e
    case BeginApply => log + [Attempt(s.now, None)]
    case Flip => if log == [] then log else log[|log| - 1 := log[|log| - 1].(flippedAt := Some(s.now))]
    case _ => log
  }

  /** The published deadline is the latest flip of the log. */
  ghost predicate LogMatches(s: State, log: seq<Attempt>) {
    && (s.writer.Installing? ==> log != [] && log[|log| - 1].flippedAt.None?)
    && (forall i :: 0 <= i < |log| && log[i].flippedAt.Some? ==>
          s.pending.Some? && log[i].flippedAt.value <= s.pending.value.flippedAt)
    && (s.pending.Some? ==>
          && s.pending.value.flippedAt <= s.now
          && exists i :: 0 <= i < |log| && log[i].flippedAt == Some(s.pending.value.flippedAt))
  }

  lemma {:induction false} LogMatchesRun(events: seq<Event>, life: nat, grace: nat)
    requires ValidRun(events, life, grace, false)
    ensures LogMatches(After(events, life, grace, false), Attempts(events, life, grace))
  {
    if events == [] {
    } else {
      var before, e := events[..|events| - 1], events[|events| - 1];
      LogMatchesRun(before, life, grace);
      var log, log' := Attempts(before, life, grace), Attempts(events, life, grace);
      var s := After(before, life, grace, false);
      if e.Flip? {
        assert log'[|log| - 1].flippedAt == Some(s.now);
      } else if s.pending.Some? {
        var i :| 0 <= i < |log| && log[i].flippedAt == Some(s.pending.value.flippedAt);
        assert log'[i] == log[i];
      }
    }
  }

  /** Exact: a run honours the published deadline iff its applies, as their caller
      sees them, keep the grace between a flip and every later write. */
  lemma {:induction false} HonourIsSpacing(events: seq<Event>, life: nat, grace: nat)
    requires ValidRun(events, life, grace, false)
    ensures ValidRun(events, life, grace, true) <==> WaitsOutGrace(Attempts(events, life, grace), grace)
    ensures ValidRun(events, life, grace, true) ==>
              After(events, life, grace, true) == After(events, life, grace, false)
  {
    if events == [] {
    } else {
      var before, e := events[..|events| - 1], events[|events| - 1];
      HonourIsSpacing(before, life, grace);
      LogMatchesRun(before, life, grace);
      SpacingStep(After(before, life, grace, false), Attempts(before, life, grace), e, life, grace);
    }
  }

  lemma SpacingStep(s: State, log: seq<Attempt>, e: Event, life: nat, grace: nat)
    requires LogMatches(s, log) && Enabled(s, e, life, grace, false)
    ensures WaitsOutGrace(Logged(s, log, e), grace) <==> WaitsOutGrace(log, grace) && Enabled(s, e, life, grace, true)
  {
    var log' := Logged(s, log, e);
    if e.BeginApply? {
      assert forall i :: 0 <= i < |log| ==> log'[i] == log[i];
      assert log'[|log|] == Attempt(s.now, None);
      if s.pending.Some? {
        var i :| 0 <= i < |log| && log[i].flippedAt == Some(s.pending.value.flippedAt);
        assert WaitsOutGrace(log', grace) ==> log'[i].flippedAt.value + grace <= log'[|log|].startedAt;
      }
      if WaitsOutGrace(log, grace) && Enabled(s, e, life, grace, true) {
        forall i, j | 0 <= i < j < |log'| && log'[i].flippedAt.Some?
          ensures log'[i].flippedAt.value + grace <= log'[j].startedAt
        {
          assert j < |log| ==> log'[j] == log[j];
        }
      }
      if WaitsOutGrace(log', grace) {
        forall i, j | 0 <= i < j < |log| && log[i].flippedAt.Some?
          ensures log[i].flippedAt.value + grace <= log[j].startedAt
        {
          assert log'[i] == log[i] && log'[j] == log[j];
        }
      }
    } else if e.Flip? {
      assert |log'| == |log| > 0;
      assert forall i :: 0 <= i < |log| - 1 ==> log'[i] == log[i];
      assert log'[|log| - 1].startedAt == log[|log| - 1].startedAt;
    }
  }
}
