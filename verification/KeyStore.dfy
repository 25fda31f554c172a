/** The gateway's own epoch keys: an in-memory store edited in place, a disk
    copy that changes only on persist, and crashes that reload it. */
module KeyStore {
  import opened Outcomes

  type Epoch = nat

  /** A private key; its public half is a function of it and is left out. */
  type Key = nat

  datatype Phase = Pending | Active | Retiring

  datatype EpochKey = EpochKey(epoch: Epoch, priv: Key, phase: Phase)

  type Store = seq<EpochKey>

  function FromLegacy(legacy: Key): Store {
    [EpochKey(0, legacy, Active)]
  }

  // ---- lookups and edits on the list ------------------------------------

  /** Position of the first entry for `e`, or the length. */
  function IndexOf(keys: Store, e: Epoch): (i: nat)
    ensures i <= |keys| && (i < |keys| ==> keys[i].epoch == e)
    ensures forall k :: 0 <= k < i ==> keys[k].epoch != e
  {
    if keys == [] || keys[0].epoch == e then 0 else 1 + IndexOf(keys[1..], e)
  }

  function Without(keys: Store, e: Epoch): Store {
    if keys == [] then []
    else (if keys[0].epoch == e then [] else [keys[0]]) + Without(keys[1..], e)
  }

  predicate Holds(keys: Store, e: Epoch, p: Phase) {
    exists i :: 0 <= i < |keys| && keys[i].epoch == e && keys[i].phase == p
  }

  /** Every active entry made retiring, and entry `at` made active. */
  function Flipped(keys: Store, at: nat): (r: Store)
    ensures |r| == |keys|
  {
    seq(|keys|, i requires 0 <= i < |keys| =>
      if i == at then keys[i].(phase := Active)
      else if keys[i].phase == Active then keys[i].(phase := Retiring)
      else keys[i])
  }

  function Minted(keys: Store, e: Epoch, newKey: Key): Option<Store> {
    var i := IndexOf(keys, e);
    if i < |keys| && keys[i].phase != Pending then None
    else Some(Without(keys, e) + [EpochKey(e, newKey, Pending)])
  }

  function PromotedAt(keys: Store, e: Epoch): Option<Store> {
    if Holds(keys, e, Pending) then Some(Flipped(keys, IndexOf(keys, e))) else None
  }

  function RetiredAt(keys: Store, e: Epoch): Option<Store> {
    if Holds(keys, e, Retiring) then Some(Without(keys, e)) else None
  }

  function DiscardedAt(keys: Store, e: Epoch): Option<Store> {
    if Holds(keys, e, Pending) then Some(Without(keys, e)) else None
  }

  function OrSame(r: Option<Store>, keys: Store): Store {
    if r.Some? then r.value else keys
  }

  class EpochKeys {
    var epochs: Store

    constructor (legacy: Key)
      ensures epochs == FromLegacy(legacy)
    {
      epochs := [EpochKey(0, legacy, Active)];
    }

    method Find(e: Epoch) returns (i: nat)
      ensures i == IndexOf(epochs, e)
    {
      i := 0;
      while i < |epochs| && epochs[i].epoch != e
        invariant i <= |epochs| && i + IndexOf(epochs[i..], e) == IndexOf(epochs, e)
      {
        assert epochs[i..][1..] == epochs[i + 1..];
        i := i + 1;
      }
    }

    method Retain(e: Epoch)
      modifies this
      ensures epochs == Without(old(epochs), e)
    {
      var kept: Store := [];
      for i := 0 to |epochs|
        invariant epochs == old(epochs) && kept + Without(epochs[i..], e) == Without(epochs, e)
      {
        WithoutStep(kept, epochs, i, e);
        if epochs[i].epoch != e {
          kept := kept + [epochs[i]];
        }
      }
      assert kept + [] == kept;
      epochs := kept;
    }

    /** Refuses a live occupant; replaces a pending one. */
    method GenerateNextAt(e: Epoch, newKey: Key) returns (ok: bool)
      modifies this
      ensures ok <==> Minted(old(epochs), e, newKey).Some?
      ensures epochs == OrSame(Minted(old(epochs), e, newKey), old(epochs))
    {
      var i := Find(e);
      if i < |epochs| && epochs[i].phase != Pending {
        return false;
      }
      Retain(e);
      epochs := epochs + [EpochKey(e, newKey, Pending)];
      return true;
    }

    method Promote(e: Epoch) returns (ok: bool)
      modifies this
      ensures ok <==> PromotedAt(old(epochs), e).Some?
      ensures epochs == OrSame(PromotedAt(old(epochs), e), old(epochs))
    {
      if !Holds(epochs, e, Pending) {
        return false;
      }
      for i := 0 to |epochs|
        invariant |epochs| == |old(epochs)|
        invariant forall k :: 0 <= k < |epochs| ==>
          epochs[k] == if k < i && old(epochs)[k].phase == Active then old(epochs)[k].(phase := Retiring)
                       else old(epochs)[k]
      {
        if epochs[i].phase == Active {
          epochs := epochs[i := epochs[i].(phase := Retiring)];
        }
      }
      var at := Find(e);
      SameEpochsSameIndex(old(epochs), epochs, e);
      epochs := epochs[at := epochs[at].(phase := Active)];
      return true;
    }

    method Retire(e: Epoch) returns (ok: bool)
      modifies this
      ensures ok <==> RetiredAt(old(epochs), e).Some?
      ensures epochs == OrSame(RetiredAt(old(epochs), e), old(epochs))
    {
      if !Holds(epochs, e, Retiring) {
        return false;
      }
      Retain(e);
      return true;
    }

    method DiscardPending(e: Epoch) returns (ok: bool)
      modifies this
      ensures ok <==> DiscardedAt(old(epochs), e).Some?
      ensures epochs == OrSame(DiscardedAt(old(epochs), e), old(epochs))
    {
      if !Holds(epochs, e, Pending) {
        return false;
      }
      Retain(e);
      return true;
    }

    method SelectBootKey(legacy: Key) returns (boot: EpochKey)
      ensures boot == BootKey(Some(epochs), legacy)
    {
      var i := 0;
      while i < |epochs| && epochs[i].phase != Active
        invariant i <= |epochs| && FirstActive(epochs[i..]) == FirstActive(epochs)
      {
        assert epochs[i..][1..] == epochs[i + 1..];
        i := i + 1;
      }
      if i < |epochs| {
        return epochs[i];
      }
      return EpochKey(0, legacy, Active);
    }
  }

  lemma WithoutStep(kept: Store, keys: Store, i: nat, e: Epoch)
    requires i < |keys|
    ensures kept + Without(keys[i..], e) ==
            (if keys[i].epoch == e then kept else kept + [keys[i]]) + Without(keys[i + 1..], e)
  {
    assert keys[i..][1..] == keys[i + 1..];
  }

  lemma {:induction false} SameEpochsSameIndex(a: Store, b: Store, e: Epoch)
    requires |a| == |b| && forall i :: 0 <= i < |a| ==> a[i].epoch == b[i].epoch
    ensures IndexOf(a, e) == IndexOf(b, e)
  {
    if a == [] || a[0].epoch == e {
    } else {
      SameEpochsSameIndex(a[1..], b[1..], e);
    }
  }

  function FirstActive(keys: Store): Option<EpochKey> {
    if keys == [] then None
    else if keys[0].phase == Active then Some(keys[0])
    else FirstActive(keys[1..])
  }

  /** The stored active key, else the enrollment key. */
  function BootKey(store: Option<Store>, legacy: Key): EpochKey {
    if store.Some? && FirstActive(store.value).Some? then FirstActive(store.value).value
    else EpochKey(0, legacy, Active)
  }

  // ---- what a sound store looks like ------------------------------------

  predicate OnePerEpoch(keys: Store) {
    forall i, j :: 0 <= i < j < |keys| ==> keys[i].epoch != keys[j].epoch
  }

  predicate OneActive(keys: Store) {
    exists a :: a in keys && OnlyActive(keys, a)
  }

  predicate OnlyActive(keys: Store, a: EpochKey) {
    a.phase == Active && forall b :: b in keys && b.phase == Active ==> b == a
  }

  predicate Good(keys: Store) {
    OnePerEpoch(keys) && OneActive(keys)
  }

  predicate DistinctKeys(keys: Store) {
    forall i, j :: 0 <= i < j < |keys| ==> keys[i].priv != keys[j].priv
  }

  predicate InStore(k: Key, keys: Store) {
    exists i :: 0 <= i < |keys| && keys[i].priv == k
  }

  lemma {:induction false} WithoutMembers(keys: Store, e: Epoch, k: EpochKey)
    ensures k in Without(keys, e) <==> k in keys && k.epoch != e
  {
    if keys == [] {
    } else {
      WithoutMembers(keys[1..], e, k);
    }
  }

  lemma {:induction false} WithoutKeepsOrder(keys: Store, e: Epoch)
    requires OnePerEpoch(keys)
    ensures OnePerEpoch(Without(keys, e))
  {
    if keys == [] {
    } else {
      WithoutKeepsOrder(keys[1..], e);
      var rest := Without(keys[1..], e);
      forall i | 0 <= i < |rest| ensures rest[i].epoch != keys[0].epoch {
        assert rest[i] in rest;
        WithoutMembers(keys[1..], e, rest[i]);
        var j :| 0 <= j < |keys[1..]| && keys[1..][j] == rest[i];
        assert keys[j + 1] == rest[i];
      }
    }
  }

  /** Removing an entry that is not the active one keeps a store good. */
  lemma WithoutIsGood(keys: Store, e: Epoch)
    requires Good(keys) && !Holds(keys, e, Active)
    ensures Good(Without(keys, e))
  {
    WithoutKeepsOrder(keys, e);
    var a :| a in keys && OnlyActive(keys, a);
    WithoutMembers(keys, e, a);
    forall b | b in Without(keys, e) && b.phase == Active ensures b == a {
      WithoutMembers(keys, e, b);
    }
    assert OnlyActive(Without(keys, e), a);
  }

  lemma NotOtherPhase(keys: Store, e: Epoch, p: Phase, q: Phase)
    requires OnePerEpoch(keys) && Holds(keys, e, p) && p != q
    ensures !Holds(keys, e, q)
  {
    var i :| 0 <= i < |keys| && keys[i].epoch == e && keys[i].phase == p;
    if j :| 0 <= j < |keys| && keys[j].epoch == e && keys[j].phase == q {
      assert false;
    }
  }

  lemma AppendIsGood(keys: Store, k: EpochKey)
    requires Good(keys) && k.phase == Pending && forall i :: 0 <= i < |keys| ==> keys[i].epoch != k.epoch
    ensures Good(keys + [k])
  {
    var a :| a in keys && OnlyActive(keys, a);
    assert a in keys + [k] && OnlyActive(keys + [k], a);
  }

  lemma LegacyIsGood(legacy: Key)
    ensures Good(FromLegacy(legacy))
  {
    var a := EpochKey(0, legacy, Active);
    assert a in FromLegacy(legacy) && OnlyActive(FromLegacy(legacy), a);
  }

  lemma MintIsGood(keys: Store, e: Epoch, newKey: Key)
    requires Good(keys) && Minted(keys, e, newKey).Some?
    ensures Good(Minted(keys, e, newKey).value)
  {
    var at := IndexOf(keys, e);
    if i :| 0 <= i < |keys| && keys[i].epoch == e && keys[i].phase == Active {
      assert false;
    }
    WithoutIsGood(keys, e);
    var w := Without(keys, e);
    forall i | 0 <= i < |w| ensures w[i].epoch != e {
      assert w[i] in w;
      WithoutMembers(keys, e, w[i]);
    }
    AppendIsGood(w, EpochKey(e, newKey, Pending));
  }

  lemma PromoteIsGood(keys: Store, e: Epoch)
    requires Good(keys) && Holds(keys, e, Pending)
    ensures Good(Flipped(keys, IndexOf(keys, e)))
  {
    var at := IndexOf(keys, e);
    var i :| 0 <= i < |keys| && keys[i].epoch == e && keys[i].phase == Pending;
    var flipped := Flipped(keys, at);
    forall b | b in flipped && b.phase == Active ensures b == flipped[at] {
      var k :| 0 <= k < |flipped| && flipped[k] == b;
    }
    assert flipped[at] in flipped && OnlyActive(flipped, flipped[at]);
  }

  lemma {:induction false} FirstActiveIsActive(keys: Store, a: EpochKey)
    requires a in keys && a.phase == Active
    ensures FirstActive(keys).Some? && FirstActive(keys).value in keys && FirstActive(keys).value.phase == Active
  {
    if keys[0].phase == Active {
    } else {
      FirstActiveIsActive(keys[1..], a);
    }
  }

  // ---- runs with crashes ------------------------------------------------

  /** `used` is every private key that has ever existed here. */
  datatype State = State(keys: Store, disk: Store, used: set<Key>)

  datatype Event =
    | Mint(e: Epoch, newKey: Key)
    | PromoteKey(e: Epoch)
    | RetireKey(e: Epoch)
    | DiscardKey(e: Epoch)
    | Persist
    | Crash

  function Initial(legacy: Key): State {
    State(FromLegacy(legacy), FromLegacy(legacy), {legacy})
  }

  predicate Fresh(s: State, ev: Event) {
    ev.Mint? ==> ev.newKey !in s.used
  }

  function Step(s: State, ev: Event): State {
    match ev
    case Mint(e, newKey) => s.(keys := OrSame(Minted(s.keys, e, newKey), s.keys), used := s.used + {newKey})
    case PromoteKey(e) => s.(keys := OrSame(PromotedAt(s.keys, e), s.keys))
    case RetireKey(e) => s.(keys := OrSame(RetiredAt(s.keys, e), s.keys))
    case DiscardKey(e) => s.(keys := OrSame(DiscardedAt(s.keys, e), s.keys))
    case Persist => s.(disk := s.keys)
    case Crash => s.(keys := s.disk)
  }

  function Run(s: State, events: seq<Event>): State {
    if events == [] then s else Step(Run(s, events[..|events| - 1]), events[|events| - 1])
  }

  lemma Then(s: State, events: seq<Event>, ev: Event)
    ensures Run(s, events + [ev]) == Step(Run(s, events), ev)
  {
    assert (events + [ev])[..|events + [ev]| - 1] == events;
  }

  predicate FreshKeys(s: State, events: seq<Event>) {
    forall k :: 0 <= k < |events| ==> Fresh(Run(s, events[..k]), events[k])
  }

  ghost predicate Sound(s: State) {
    && Good(s.keys) && Good(s.disk) && DistinctKeys(s.keys) && DistinctKeys(s.disk)
    && (forall k :: InStore(k, s.keys) || InStore(k, s.disk) ==> k in s.used)
  }

  lemma StepInStore(s: State, ev: Event, k: Key)
    requires InStore(k, Step(s, ev).keys)
    ensures InStore(k, s.keys) || (ev.Mint? && k == ev.newKey) || (ev.Crash? && InStore(k, s.disk))
  {
    var keys' := Step(s, ev).keys;
    var i :| 0 <= i < |keys'| && keys'[i].priv == k;
    if ev.PromoteKey? && keys' != s.keys {
      assert s.keys[i].priv == k;
    } else if !ev.Crash? && keys' != s.keys {
      assert keys'[i] in keys';
      WithoutMembers(s.keys, ev.e, keys'[i]);
    }
  }

  lemma StepIsGood(s: State, ev: Event)
    requires Good(s.keys) && Good(s.disk)
    ensures Good(Step(s, ev).keys) && Good(Step(s, ev).disk)
  {
    match ev
    case Mint(e, newKey) => if Minted(s.keys, e, newKey).Some? { MintIsGood(s.keys, e, newKey); }
    case PromoteKey(e) => if Holds(s.keys, e, Pending) { PromoteIsGood(s.keys, e); }
    case RetireKey(e) => if Holds(s.keys, e, Retiring) {
      NotOtherPhase(s.keys, e, Retiring, Active);
      WithoutIsGood(s.keys, e);
    }
    case DiscardKey(e) => if Holds(s.keys, e, Pending) {
      NotOtherPhase(s.keys, e, Pending, Active);
      WithoutIsGood(s.keys, e);
    }
    case _ =>
  }

  /** From a legacy store, through any edits, persists and crashes: one entry
      per epoch and exactly one active key, in memory and on disk. */
  lemma {:induction false} RunIsGood(legacy: Key, events: seq<Event>)
    ensures Good(Run(Initial(legacy), events).keys) && Good(Run(Initial(legacy), events).disk)
  {
    if events == [] {
      LegacyIsGood(legacy);
    } else {
      RunIsGood(legacy, events[..|events| - 1]);
      StepIsGood(Run(Initial(legacy), events[..|events| - 1]), events[|events| - 1]);
    }
  }

  // ---- destroyed keys stay destroyed ------------------------------------

  predicate Gone(s: State, k: Key) {
    k in s.used && !InStore(k, s.keys) && !InStore(k, s.disk)
  }

  lemma GoneStep(s: State, ev: Event, k: Key)
    requires Gone(s, k) && Fresh(s, ev)
    ensures Gone(Step(s, ev), k)
  {
    if InStore(k, Step(s, ev).keys) {
      StepInStore(s, ev, k);
      assert false;
    }
  }

  /** A key absent from memory and disk never comes back, whatever happens. */
  lemma {:induction false} GoneForGood(s: State, events: seq<Event>, k: Key)
    requires Gone(s, k) && FreshKeys(s, events)
    ensures Gone(Run(s, events), k)
  {
    if events == [] {
    } else {
      var m := |events| - 1;
      var before := events[..m];
      assert forall i :: 0 <= i <= m ==> events[..i] == before[..i];
      GoneForGood(s, before, k);
      GoneStep(Run(s, before), events[m], k);
    }
  }

  /** The calls that take a private key out of the store. */
  predicate Removes(s: State, ev: Event, k: Key) {
    InStore(k, s.keys) && !InStore(k, Step(s, ev).keys) && !ev.Crash?
  }

  /** Exactly these: retiring a retiring epoch, discarding a pending one, and
      minting over a pending one. */
  lemma RemovesExactly(s: State, ev: Event, entry: EpochKey)
    requires Sound(s) && entry in s.keys && Fresh(s, ev)
    ensures Removes(s, ev, entry.priv) <==>
            || (ev == RetireKey(entry.epoch) && entry.phase == Retiring)
            || (ev == DiscardKey(entry.epoch) && entry.phase == Pending)
            || (ev.Mint? && ev.e == entry.epoch && entry.phase == Pending)
  {
    var at :| 0 <= at < |s.keys| && s.keys[at] == entry;
    OnlyIndex(s.keys, at);
    match ev
    case Mint(e, newKey) =>
      if Minted(s.keys, e, newKey).Some? {
        WithoutDrops(s.keys, e, at);
        MintAdds(Without(s.keys, e), EpochKey(e, newKey, Pending), entry.priv);
      }
    case PromoteKey(e) =>
      if Holds(s.keys, e, Pending) {
        assert Step(s, ev).keys[at].priv == entry.priv;
      }
    case RetireKey(e) => WithoutDrops(s.keys, e, at);
    case DiscardKey(e) => WithoutDrops(s.keys, e, at);
    case _ =>
  }

  lemma MintAdds(keys: Store, entry: EpochKey, k: Key)
    ensures InStore(k, keys + [entry]) <==> InStore(k, keys) || k == entry.priv
  {
    if i :| 0 <= i < |keys| && keys[i].priv == k {
      assert (keys + [entry])[i].priv == k;
    }
    assert (keys + [entry])[|keys|] == entry;
  }

  lemma WithoutDrops(keys: Store, e: Epoch, at: nat)
    requires OnePerEpoch(keys) && DistinctKeys(keys) && at < |keys|
    ensures InStore(keys[at].priv, keys)
    ensures InStore(keys[at].priv, Without(keys, e)) <==> keys[at].epoch != e
  {
    var w := Without(keys, e);
    WithoutMembers(keys, e, keys[at]);
    if keys[at] in w {
      var i :| 0 <= i < |w| && w[i] == keys[at];
    }
    if i :| 0 <= i < |w| && w[i].priv == keys[at].priv {
      assert w[i] in w;
      WithoutMembers(keys, e, w[i]);
    }
  }

  lemma OnlyIndex(keys: Store, at: nat)
    requires OnePerEpoch(keys) && at < |keys|
    ensures IndexOf(keys, keys[at].epoch) == at
    ensures forall p: Phase :: Holds(keys, keys[at].epoch, p) <==> p == keys[at].phase
  {
    assert Holds(keys, keys[at].epoch, keys[at].phase);
  }

  predicate NonePersists(events: seq<Event>) {
    forall i :: 0 <= i < |events| ==> !events[i].Persist?
  }

  lemma {:induction false} DiskUntouched(s: State, events: seq<Event>)
    requires NonePersists(events)
    ensures Run(s, events).disk == s.disk
  {
    if events == [] {
    } else {
      DiskUntouched(s, events[..|events| - 1]);
    }
  }

  lemma ScrubbedIsGone(s: State, ev: Event, k: Key)
    requires Sound(s) && Removes(s, ev, k)
    ensures Gone(Step(Step(s, ev), Persist), k)
  {
  }

  lemma UnscrubbedComesBack(s: State, ev: Event, k: Key, more: seq<Event>)
    requires Removes(s, ev, k) && !ev.Persist? && NonePersists(more)
    ensures InStore(k, Step(Run(Step(s, ev), more), Crash).keys) <==> InStore(k, s.disk)
  {
    DiskUntouched(Step(s, ev), more);
  }

  /** A removal followed by a persist destroys the key: through any further run,
      crashes included, it is in neither the store nor the file. Until a persist
      comes, however long that takes, a crash brings it back exactly when it was on
      disk. */
  lemma ScrubIsFinal(s: State, ev: Event, k: Key, more: seq<Event>)
    requires Sound(s) && Fresh(s, ev) && Removes(s, ev, k)
    ensures FreshKeys(Step(Step(s, ev), Persist), more) ==> Gone(Run(Step(Step(s, ev), Persist), more), k)
    ensures NonePersists(more) ==>
              (InStore(k, Step(Run(Step(s, ev), more), Crash).keys) <==> InStore(k, s.disk))
  {
    ScrubbedIsGone(s, ev, k);
    if FreshKeys(Step(Step(s, ev), Persist), more) {
      GoneForGood(Step(Step(s, ev), Persist), more, k);
    }
    if NonePersists(more) {
      UnscrubbedComesBack(s, ev, k, more);
    }
  }

  lemma {:induction false} WithoutIsDistinct(keys: Store, e: Epoch)
    requires DistinctKeys(keys)
    ensures DistinctKeys(Without(keys, e))
  {
    if keys == [] {
    } else {
      WithoutIsDistinct(keys[1..], e);
      var rest := Without(keys[1..], e);
      forall i | 0 <= i < |rest| ensures rest[i].priv != keys[0].priv {
        assert rest[i] in rest;
        WithoutMembers(keys[1..], e, rest[i]);
        var j :| 0 <= j < |keys[1..]| && keys[1..][j] == rest[i];
        assert keys[j + 1] == rest[i];
      }
    }
  }

  lemma StepIsDistinct(s: State, ev: Event)
    requires Sound(s) && Fresh(s, ev)
    ensures DistinctKeys(Step(s, ev).keys) && DistinctKeys(Step(s, ev).disk)
  {
    if ev.Mint? || ev.RetireKey? || ev.DiscardKey? {
      WithoutIsDistinct(s.keys, ev.e);
      var w := Without(s.keys, ev.e);
      forall i | 0 <= i < |w| ensures w[i].priv in s.used {
        assert w[i] in w;
        WithoutMembers(s.keys, ev.e, w[i]);
        assert InStore(w[i].priv, s.keys);
      }
    }
  }

  lemma {:induction false} RunIsSound(legacy: Key, events: seq<Event>)
    requires FreshKeys(Initial(legacy), events)
    ensures Sound(Run(Initial(legacy), events))
  {
    RunIsGood(legacy, events);
    if events == [] {
    } else {
      var m := |events| - 1;
      var before := events[..m];
      assert forall i :: 0 <= i <= m ==> events[..i] == before[..i];
      RunIsSound(legacy, before);
      var s := Run(Initial(legacy), before);
      StepIsDistinct(s, events[m]);
      forall k | InStore(k, Step(s, events[m]).keys) ensures k in Step(s, events[m]).used {
        StepInStore(s, events[m], k);
      }
    }
  }

  // ---- what a reboot selects --------------------------------------------

  /** Just after the last persist of the run; zero for the initial one. */
  function LastPersist(events: seq<Event>): (n: nat)
    ensures n <= |events|
  {
    if events == [] then 0
    else if events[|events| - 1].Persist? then |events|
    else LastPersist(events[..|events| - 1])
  }

  lemma {:induction false} DiskIsLastPersisted(s: State, events: seq<Event>)
    requires s.disk == s.keys
    ensures Run(s, events).disk == Run(s, events[..LastPersist(events)]).keys
  {
    if events == [] {
      assert events[..0] == events;
    } else if events[|events| - 1].Persist? {
      assert events[..|events|] == events;
    } else {
      var before := events[..|events| - 1];
      DiskIsLastPersisted(s, before);
      assert events[..LastPersist(before)] == before[..LastPersist(before)];
    }
  }

  /** A reboot runs on the key that was active when the store was last written:
      never on a pending one, nor on the enrollment key once another is active. */
  lemma BootsOnLastPersistedActive(legacy: Key, events: seq<Event>)
    ensures var boot := BootKey(Some(Run(Initial(legacy), events).disk), legacy);
            && boot.phase == Active
            && boot in Run(Initial(legacy), events[..LastPersist(events)]).keys
            && forall k :: k in Run(Initial(legacy), events[..LastPersist(events)]).keys && k.phase == Active ==>
                 k == boot
  {
    RunIsGood(legacy, events);
    DiskIsLastPersisted(Initial(legacy), events);
    var disk := Run(Initial(legacy), events).disk;
    var a :| a in disk && OnlyActive(disk, a);
    FirstActiveIsActive(disk, a);
  }
}
