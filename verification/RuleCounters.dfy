/** Per-rule hit counters across policy generations. The kernel counts by
    position; userspace keeps totals by rule id, folding the positions into
    them just before it flips to a new generation. */
module RuleCounters {
  import opened Outcomes
  import opened PolicyIr

  const COUNTER_SLOTS: nat := 258

  type Totals = map<string, nat>

  type Slots = s: seq<nat> | |s| == COUNTER_SLOTS witness seq(COUNTER_SLOTS, _ => 0)

  type RuleIds = r: seq<string> | |r| <= MAX_RULES witness []

  function Get(t: Totals, id: string): nat {
    if id in t then t[id] else 0
  }

  /** A zero count leaves no entry behind. */
  function Credit(t: Totals, id: string, n: nat): Totals {
    if n == 0 then t else t[id := Get(t, id) + n]
  }

  /** `t` with the first `n` positions credited to the ids they stand for. */
  function CreditAll(t: Totals, ids: RuleIds, slots: Slots, n: nat): Totals
    requires n <= |ids|
  {
    if n == 0 then t else Credit(CreditAll(t, ids, slots, n - 1), ids[n - 1], slots[n - 1])
  }

  function Restrict(t: Totals, ids: seq<string>): Totals {
    map id | id in t && id in ids :: t[id]
  }

  function Min(a: nat, b: nat): nat {
    if a < b then a else b
  }

  function Max(a: nat, b: nat): nat {
    if a < b then b else a
  }

  // ---- the state, and what one apply does to it -------------------------

  datatype Book = Book(slots: Slots, ids: RuleIds, accum: Totals, denyAccum: nat)

  /** What a reader of the counters sees. */
  function ByRule(b: Book): Totals {
    CreditAll(b.accum, b.ids, b.slots, |b.ids|)
  }

  function Denied(b: Book): nat {
    b.denyAccum + b.slots[CTR_DEFAULT_DENY]
  }

  function Zeroed(slots: Slots, n: nat): (z: Slots)
    requires n <= COUNTER_SLOTS
    ensures forall i :: 0 <= i < COUNTER_SLOTS ==> z[i] == if i < n then 0 else slots[i]
  {
    seq(COUNTER_SLOTS, i requires 0 <= i < COUNTER_SLOTS => if i < n then 0 else slots[i])
  }

  /** The first `n` positions moved into the totals by id. */
  function FoldTo(b: Book, n: nat): Book
    requires n <= MAX_RULES
  {
    b.(slots := Zeroed(b.slots, n), accum := CreditAll(b.accum, b.ids, b.slots, Min(n, |b.ids|)))
  }

  function FoldDeny(b: Book): Book {
    b.(slots := b.slots[CTR_DEFAULT_DENY := 0], denyAccum := b.denyAccum + b.slots[CTR_DEFAULT_DENY])
  }

  function ResetLen(b: Book, newLen: nat): nat {
    Min(Max(|b.ids|, newLen), MAX_RULES)
  }

  function Folded(b: Book, newLen: nat): Book {
    FoldDeny(FoldTo(b, ResetLen(b, newLen)))
  }

  function Pruned(b: Book, newIds: RuleIds): Book {
    b.(accum := Restrict(b.accum, newIds))
  }

  /** How far one apply got. */
  datatype Outcome =
    | InstallFailed
    | FoldFailed(at: nat)
    | FlipFailed
    | Applied

  function Apply(b: Book, newIds: RuleIds, outcome: Outcome): Book {
    match outcome
    case InstallFailed => b
    case FoldFailed(at) => FoldTo(b, Min(at, ResetLen(b, |newIds|)))
    case FlipFailed => Pruned(Folded(b, |newIds|), newIds)
    case Applied => Pruned(Folded(b, |newIds|), newIds).(ids := newIds)
  }

  function Hit(b: Book, i: nat): Book
    requires i < COUNTER_SLOTS
  {
    b.(slots := b.slots[i := b.slots[i] + 1])
  }

  // ---- crediting --------------------------------------------------------

  lemma CreditCommutes(t: Totals, a: string, m: nat, b: string, n: nat)
    ensures Credit(Credit(t, a, m), b, n) == Credit(Credit(t, b, n), a, m)
  {
  }

  lemma CreditAdds(t: Totals, id: string, m: nat, n: nat)
    ensures Credit(Credit(t, id, m), id, n) == Credit(t, id, m + n)
  {
  }

  lemma {:induction false} CreditAllZero(t: Totals, ids: RuleIds, slots: Slots, n: nat)
    requires n <= |ids| && forall i :: 0 <= i < n ==> slots[i] == 0
    ensures CreditAll(t, ids, slots, n) == t
  {
    if n == 0 {
    } else {
      CreditAllZero(t, ids, slots, n - 1);
    }
  }

  lemma {:induction false} CreditAllReads(t: Totals, ids: RuleIds, s: Slots, s': Slots, n: nat)
    requires n <= |ids| && forall i :: 0 <= i < n ==> s[i] == s'[i]
    ensures CreditAll(t, ids, s, n) == CreditAll(t, ids, s', n)
  {
    if n == 0 {
    } else {
      CreditAllReads(t, ids, s, s', n - 1);
    }
  }

  /** One more hit at position `i` is one more credit to its id. */
  lemma {:induction false} CreditAllHit(t: Totals, ids: RuleIds, slots: Slots, i: nat, n: nat)
    requires i < n <= |ids|
    ensures CreditAll(t, ids, slots[i := slots[i] + 1], n) == Credit(CreditAll(t, ids, slots, n), ids[i], 1)
  {
    var slots' := slots[i := slots[i] + 1];
    if i == n - 1 {
      CreditAllReads(t, ids, slots, slots', n - 1);
      CreditAdds(CreditAll(t, ids, slots, n - 1), ids[i], slots[i], 1);
    } else {
      CreditAllHit(t, ids, slots, i, n - 1);
      CreditCommutes(CreditAll(t, ids, slots, n - 1), ids[i], 1, ids[n - 1], slots[n - 1]);
    }
  }

  /** Moving the first `m` positions into the totals leaves the report as is. */
  lemma {:induction false} CreditAllSplits(t: Totals, ids: RuleIds, slots: Slots, m: nat, n: nat)
    requires m <= n <= |ids|
    ensures CreditAll(CreditAll(t, ids, slots, m), ids, Zeroed(slots, m), n) == CreditAll(t, ids, slots, n)
  {
    if m == n {
      CreditAllZero(CreditAll(t, ids, slots, m), ids, Zeroed(slots, m), n);
    } else {
      CreditAllSplits(t, ids, slots, m, n - 1);
    }
  }

  // ---- what each step does to the report --------------------------------

  /** Folding conserves every count, wherever it stops. */
  lemma FoldConserves(b: Book, n: nat)
    requires n <= MAX_RULES
    ensures ByRule(FoldTo(b, n)) == ByRule(b) && Denied(FoldTo(b, n)) == Denied(b)
  {
    var m := Min(n, |b.ids|);
    CreditAllSplits(b.accum, b.ids, b.slots, m, |b.ids|);
    CreditAllReads(CreditAll(b.accum, b.ids, b.slots, m), b.ids, Zeroed(b.slots, m), Zeroed(b.slots, n), |b.ids|);
  }

  lemma FoldDenyConserves(b: Book)
    ensures ByRule(FoldDeny(b)) == ByRule(b) && Denied(FoldDeny(b)) == Denied(b)
  {
    CreditAllReads(b.accum, b.ids, b.slots, FoldDeny(b).slots, |b.ids|);
  }

  lemma FoldedIsClean(b: Book, newLen: nat)
    requires newLen <= MAX_RULES
    ensures ByRule(Folded(b, newLen)) == Folded(b, newLen).accum == ByRule(b)
    ensures Denied(Folded(b, newLen)) == Denied(b)
    ensures forall i :: 0 <= i < Max(|b.ids|, newLen) ==> Folded(b, newLen).slots[i] == 0
  {
    FoldConserves(b, ResetLen(b, newLen));
    FoldDenyConserves(FoldTo(b, ResetLen(b, newLen)));
    var f := Folded(b, newLen);
    CreditAllZero(f.accum, f.ids, f.slots, |f.ids|);
  }

  lemma ApplyReports(b: Book, newIds: RuleIds, outcome: Outcome)
    ensures var b' := Apply(b, newIds, outcome);
            && Denied(b') == Denied(b)
            && ByRule(b') == (if outcome.InstallFailed? || outcome.FoldFailed? then ByRule(b)
                              else Restrict(ByRule(b), newIds))
  {
    match outcome
    case InstallFailed =>
    case FoldFailed(at) => FoldConserves(b, Min(at, ResetLen(b, |newIds|)));
    case _ =>
      FoldedIsClean(b, |newIds|);
      var b' := Apply(b, newIds, outcome);
      CreditAllZero(b'.accum, b'.ids, b'.slots, |b'.ids|);
  }

  lemma HitReports(b: Book, i: nat)
    requires i < COUNTER_SLOTS
    ensures ByRule(Hit(b, i)) == if i < |b.ids| then Credit(ByRule(b), b.ids[i], 1) else ByRule(b)
    ensures Denied(Hit(b, i)) == Denied(b) + if i == CTR_DEFAULT_DENY then 1 else 0
  {
    if i < |b.ids| {
      CreditAllHit(b.accum, b.ids, b.slots, i, |b.ids|);
    } else {
      CreditAllReads(b.accum, b.ids, b.slots, Hit(b, i).slots, |b.ids|);
    }
  }

  // ---- whole runs -------------------------------------------------------

  datatype Event =
    | Match(i: nat)
    | Replace(newIds: RuleIds, outcome: Outcome)

  predicate Possible(e: Event) {
    e.Match? ==> e.i < COUNTER_SLOTS
  }

  function Start(): Book {
    Book(seq(COUNTER_SLOTS, _ => 0), [], map[], 0)
  }

  function Step(b: Book, e: Event): Book
    requires Possible(e)
  {
    match e
    case Match(i) => Hit(b, i)
    case Replace(newIds, outcome) => Apply(b, newIds, outcome)
  }

  function Run(events: seq<Event>): Book
    requires forall i :: 0 <= i < |events| ==> Possible(events[i])
  {
    if events == [] then Start() else Step(Run(events[..|events| - 1]), events[|events| - 1])
  }

  /** The list in force after a run: that of the last apply to succeed. */
  function IdsAfter(events: seq<Event>): RuleIds {
    if events == [] then []
    else
      var last := events[|events| - 1];
      if last.Replace? && last.outcome.Applied? then last.newIds else IdsAfter(events[..|events| - 1])
  }

  /** Hits on rule `id` since it was last missing from a list that reached the
      flip. Read off the run alone: positions and totals play no part. */
  function Since(events: seq<Event>, id: string): nat {
    if events == [] then 0
    else
      var last, before := events[|events| - 1], events[..|events| - 1];
      match last
      case Match(i) =>
        Since(before, id) + if i < |IdsAfter(before)| && IdsAfter(before)[i] == id then 1 else 0
      case Replace(newIds, outcome) =>
        if (outcome.FlipFailed? || outcome.Applied?) && id !in newIds then 0 else Since(before, id)
  }

  function DeniedSince(events: seq<Event>): nat {
    if events == [] then 0
    else
      var last := events[|events| - 1];
      DeniedSince(events[..|events| - 1]) + if last == Match(CTR_DEFAULT_DENY) then 1 else 0
  }

  lemma StepIds(b: Book, e: Event)
    requires Possible(e)
    ensures Step(b, e).ids == if e.Replace? && e.outcome.Applied? then e.newIds else b.ids
  {
  }

  lemma {:induction false} IdsAreTheLastApplied(events: seq<Event>)
    requires forall i :: 0 <= i < |events| ==> Possible(events[i])
    ensures Run(events).ids == IdsAfter(events)
  {
    if events == [] {
    } else {
      IdsAreTheLastApplied(events[..|events| - 1]);
      StepIds(Run(events[..|events| - 1]), events[|events| - 1]);
    }
  }

  /** Counters survive re-homing: after any run the report gives every rule its
      hits since it last entered the policy, no matter which positions it held,
      and an entry exists exactly for the rules that were hit. */
  lemma {:induction false} ReportIsHistory(events: seq<Event>, id: string)
    requires forall i :: 0 <= i < |events| ==> Possible(events[i])
    ensures Get(ByRule(Run(events)), id) == Since(events, id)
    ensures id in ByRule(Run(events)) <==> Since(events, id) > 0
    ensures Denied(Run(events)) == DeniedSince(events)
  {
    if events == [] {
    } else {
      var last, before := events[|events| - 1], events[..|events| - 1];
      ReportIsHistory(before, id);
      IdsAreTheLastApplied(before);
      match last
      case Match(i) => HitReports(Run(before), i);
      case Replace(newIds, outcome) => ApplyReports(Run(before), newIds, outcome);
    }
  }

  /** A removed rule is forgotten at the very apply that drops it. */
  lemma RemovedRuleForgotten(events: seq<Event>, newIds: RuleIds, id: string)
    requires forall i :: 0 <= i < |events| ==> Possible(events[i])
    requires id !in newIds
    ensures id !in ByRule(Run(events + [Replace(newIds, Applied)]))
  {
    var all := events + [Replace(newIds, Applied)];
    assert all[..|all| - 1] == events;
    ReportIsHistory(all, id);
  }

  /** Hits as the kernel makes them: on a live position, or on default deny. */
  predicate OnLivePositions(events: seq<Event>) {
    forall k :: 0 <= k < |events| && events[k].Match? ==>
      events[k].i < |IdsAfter(events[..k])| || events[k].i == CTR_DEFAULT_DENY
  }

  predicate CleanAbove(b: Book) {
    forall i :: |b.ids| <= i < MAX_RULES ==> b.slots[i] == 0
  }

  lemma CleanAboveStep(b: Book, e: Event)
    requires Possible(e) && CleanAbove(b)
    requires e.Match? ==> e.i < |b.ids| || e.i == CTR_DEFAULT_DENY
    ensures CleanAbove(Step(b, e))
  {
  }

  /** Then nothing is ever left above the live positions, so the values a fold
      drops for want of an id are all zero. */
  lemma {:induction false} NothingAboveLive(events: seq<Event>)
    requires forall k :: 0 <= k < |events| ==> Possible(events[k])
    requires OnLivePositions(events)
    ensures CleanAbove(Run(events))
  {
    if events == [] {
    } else {
      var m := |events| - 1;
      var before := events[..m];
      forall k | 0 <= k < m ensures before[k] == events[k] && before[..k] == events[..k] {
      }
      NothingAboveLive(before);
      IdsAreTheLastApplied(before);
      CleanAboveStep(Run(before), events[m]);
    }
  }

  lemma {:induction false} NoMoreThanListed(ids: seq<string>, s: set<string>)
    requires forall x :: x in s ==> x in ids
    ensures |s| <= |ids|
  {
    if ids == [] {
    } else {
      NoMoreThanListed(ids[1..], s - {ids[0]});
    }
  }

  /** The accumulator never outgrows the list it was pruned to. */
  lemma ApplyBoundsTotals(b: Book, newIds: RuleIds)
    ensures |Apply(b, newIds, Applied).accum| <= |newIds| <= MAX_RULES
  {
    var accum := Apply(b, newIds, Applied).accum;
    NoMoreThanListed(newIds, accum.Keys);
  }

  // ---- a hit inside the fold window -------------------------------------

  /** Positions `from` to `n` credited to the ids they stand for. */
  function CreditRange(t: Totals, ids: RuleIds, slots: Slots, from: nat, n: nat): Totals
    requires n <= |ids|
  {
    if n <= from then t else Credit(CreditRange(t, ids, slots, from, n - 1), ids[n - 1], slots[n - 1])
  }

  /** The rest of a fold that has reached position `from`. */
  function FoldRest(b: Book, from: nat, n: nat): Book
    requires n <= MAX_RULES
  {
    b.(slots := seq(COUNTER_SLOTS, k requires 0 <= k < COUNTER_SLOTS => if from <= k < n then 0 else b.slots[k]),
       accum := CreditRange(b.accum, b.ids, b.slots, from, Min(n, |b.ids|)))
  }

  /** An apply that succeeds, with one hit at position `i` just before the fold
      takes position `m`, or after the fold when `m` is its length. */
  function HitDuringFold(b: Book, i: nat, m: nat, newIds: RuleIds): Book
    requires i < MAX_RULES && m <= ResetLen(b, |newIds|)
  {
    var struck := Hit(FoldTo(b, m), i);
    Pruned(FoldDeny(FoldRest(struck, m, ResetLen(b, |newIds|))), newIds).(ids := newIds)
  }

  function HitThenApply(b: Book, i: nat, newIds: RuleIds): Book
    requires i < COUNTER_SLOTS
  {
    Apply(Hit(b, i), newIds, Applied)
  }

  function HitAfterFold(b: Book, i: nat, newIds: RuleIds): Book
    requires i < COUNTER_SLOTS
  {
    Pruned(Hit(Folded(b, |newIds|), i), newIds).(ids := newIds)
  }

  lemma {:induction false} RangeCompletes(t: Totals, ids: RuleIds, s: Slots, s': Slots, m: nat, n: nat)
    requires n <= |ids| && forall k :: m <= k < n ==> s'[k] == s[k]
    ensures CreditRange(CreditAll(t, ids, s, Min(m, n)), ids, s', m, n) == CreditAll(t, ids, s, n)
  {
    if n <= m {
    } else {
      RangeCompletes(t, ids, s, s', m, n - 1);
    }
  }

  lemma HitAheadOfFold(b: Book, i: nat, m: nat, n: nat)
    requires m <= i < |b.ids| && m <= n <= MAX_RULES
    ensures FoldRest(Hit(FoldTo(b, m), i), m, n) == FoldTo(Hit(b, i), n)
  {
    var struck, hit := Hit(FoldTo(b, m), i), Hit(b, i);
    CreditAllReads(b.accum, b.ids, b.slots, hit.slots, m);
    RangeCompletes(b.accum, b.ids, hit.slots, struck.slots, m, Min(n, |b.ids|));
    assert FoldRest(struck, m, n).slots == FoldTo(hit, n).slots;
  }

  lemma HitBehindFold(b: Book, i: nat, m: nat, n: nat)
    requires i < |b.ids| && i < m <= n <= MAX_RULES
    ensures FoldRest(Hit(FoldTo(b, m), i), m, n) == Hit(FoldTo(b, n), i)
  {
    var struck := Hit(FoldTo(b, m), i);
    RangeCompletes(b.accum, b.ids, b.slots, struck.slots, m, Min(n, |b.ids|));
    assert FoldRest(struck, m, n).slots == Hit(FoldTo(b, n), i).slots;
  }

  /** When exactly during the fold it lands makes no difference but one: before or
      after its own position is folded. */
  lemma HitDuringFoldIs(b: Book, i: nat, m: nat, newIds: RuleIds)
    requires i < |b.ids| && m <= ResetLen(b, |newIds|)
    ensures HitDuringFold(b, i, m, newIds) == if m <= i then HitThenApply(b, i, newIds) else HitAfterFold(b, i, newIds)
  {
    var n := ResetLen(b, |newIds|);
    if m <= i {
      HitAheadOfFold(b, i, m, n);
    } else {
      HitBehindFold(b, i, m, n);
      var folded := FoldTo(b, n);
      assert FoldDeny(Hit(folded, i)).slots == Hit(FoldDeny(folded), i).slots;
    }
  }

  /** A hit on an already folded position is not lost: it is reported for
      whichever rule the new list has there. */
  lemma WindowHitGoesToNewRule(b: Book, i: nat, m: nat, newIds: RuleIds)
    requires i < |b.ids| && i < m <= ResetLen(b, |newIds|)
    ensures ByRule(HitDuringFold(b, i, m, newIds)) ==
            if i < |newIds| then Credit(Restrict(ByRule(b), newIds), newIds[i], 1) else Restrict(ByRule(b), newIds)
  {
    HitDuringFoldIs(b, i, m, newIds);
    FoldedIsClean(b, |newIds|);
    var clean := Pruned(Folded(b, |newIds|), newIds).(ids := newIds);
    CreditAllZero(clean.accum, newIds, clean.slots, |newIds|);
    HitReports(clean, i);
    assert HitAfterFold(b, i, newIds) == Hit(clean, i);
  }

  /** So a hit is reported as if it had come before the apply exactly when it lands
      before its position is folded, or its rule keeps the position, or both the
      rule and the position go. */
  lemma WindowHitExact(b: Book, i: nat, m: nat, newIds: RuleIds)
    requires i < |b.ids| && m <= ResetLen(b, |newIds|)
    ensures ByRule(HitDuringFold(b, i, m, newIds)) == ByRule(HitThenApply(b, i, newIds)) <==>
            m <= i || if i < |newIds| then newIds[i] == b.ids[i] else b.ids[i] !in newIds
  {
    HitDuringFoldIs(b, i, m, newIds);
    if i < m {
      WindowHitGoesToNewRule(b, i, m, newIds);
      HitReports(b, i);
      ApplyReports(Hit(b, i), newIds, Applied);
      var id := b.ids[i];
      RestrictCredit(ByRule(b), id, newIds);
      if i < |newIds| {
        CreditsDiffer(Restrict(ByRule(b), newIds), newIds[i], id, id in newIds);
      } else if id in newIds {
        CreditChanges(Restrict(ByRule(b), newIds), id);
      }
    }
  }

  lemma RestrictCredit(t: Totals, id: string, ids: seq<string>)
    ensures Restrict(Credit(t, id, 1), ids) ==
            if id in ids then Credit(Restrict(t, ids), id, 1) else Restrict(t, ids)
  {
  }

  lemma CreditChanges(t: Totals, id: string)
    ensures Credit(t, id, 1) != t
  {
    assert Get(Credit(t, id, 1), id) == Get(t, id) + 1;
  }

  lemma CreditsDiffer(t: Totals, a: string, b: string, toB: bool)
    ensures Credit(t, a, 1) == (if toB then Credit(t, b, 1) else t) <==> a == b && toB
  {
    assert Get(Credit(t, a, 1), a) == Get(t, a) + 1;
    assert a != b ==> Get(Credit(t, b, 1), a) == Get(t, a);
  }

  /** Two rules in force, and an apply that swaps them: a hit on the first rule right
      after its position is folded is reported for the second. */
  lemma SwapMiscredits(x: string, y: string)
    requires x != y
    ensures var b := Run([Replace([x, y], Applied)]);
            && |b.ids| == 2
            && ByRule(HitDuringFold(b, 0, 1, [y, x])) == map[y := 1]
            && ByRule(HitThenApply(b, 0, [y, x])) == map[x := 1]
  {
    var events := [Replace([x, y], Applied)];
    assert events[..0] == [];
    var b := Run(events);
    ApplyReports(Start(), [x, y], Applied);
    assert events[|events| - 1] == Replace([x, y], Applied) && Run(events[..0]) == Start();
    assert ByRule(Start()) == map[] && ByRule(b) == map[];
    WindowHitGoesToNewRule(b, 0, 1, [y, x]);
    HitReports(b, 0);
    ApplyReports(Hit(b, 0), [y, x], Applied);
    RestrictCredit(ByRule(b), x, [y, x]);
  }

  // ---- the enforcer's own state -----------------------------------------

  class GenerationState {
    var counters: Slots
    var idxToRuleId: RuleIds
    var counterAccum: Totals
    var defaultDenyAccum: nat

    function View(): Book
      reads this
    {
      Book(counters, idxToRuleId, counterAccum, defaultDenyAccum)
    }

    constructor ()
      ensures View() == Start()
    {
      counters := seq(COUNTER_SLOTS, _ => 0);
      idxToRuleId := [];
      counterAccum := map[];
      defaultDenyAccum := 0;
    }

    method FoldAndResetCounters(newLen: nat)
      modifies this
      ensures View() == Folded(old(View()), newLen)
    {
      var oldLen := |idxToRuleId|;
      var resetLen := Min(Max(oldLen, newLen), MAX_RULES);
      for idx := 0 to resetLen
        invariant View() == FoldTo(old(View()), idx)
      {
        FoldOne(idx);
      }
      var dd := counters[CTR_DEFAULT_DENY];
      if dd > 0 {
        counters := counters[CTR_DEFAULT_DENY := 0];
        defaultDenyAccum := defaultDenyAccum + dd;
      }
      assert counters == Folded(old(View()), newLen).slots;
    }

    method FoldOne(idx: nat)
      requires idx < MAX_RULES
      modifies `counters, `counterAccum
      ensures counters == old(counters)[idx := 0]
      ensures counterAccum ==
              if idx < |idxToRuleId| then Credit(old(counterAccum), idxToRuleId[idx], old(counters)[idx])
              else old(counterAccum)
      ensures forall b: Book :: old(View()) == FoldTo(b, idx) ==> View() == FoldTo(b, idx + 1)
    {
      var val := counters[idx];
      if val > 0 {
        counters := counters[idx := 0];
        if idx < |idxToRuleId| {
          counterAccum := Credit(counterAccum, idxToRuleId[idx], val);
        }
      }
      forall b: Book | old(View()) == FoldTo(b, idx) ensures View() == FoldTo(b, idx + 1) {
        assert counters == Zeroed(b.slots, idx + 1);
      }
    }

    method PruneRetiredCounters(newIds: RuleIds)
      modifies `counterAccum
      ensures View() == Pruned(old(View()), newIds)
      ensures forall id :: id in counterAccum <==> id in old(counterAccum) && id in newIds
      ensures forall id :: id in counterAccum ==> counterAccum[id] == old(counterAccum)[id]
    {
      counterAccum := Restrict(counterAccum, newIds);
    }

    /** The tail of one apply, once the new maps are installed. */
    method Publish(newIds: RuleIds, flipOk: bool)
      modifies this
      ensures View() == Apply(old(View()), newIds, if flipOk then Applied else FlipFailed)
    {
      FoldAndResetCounters(|newIds|);
      PruneRetiredCounters(newIds);
      if flipOk {
        idxToRuleId := newIds;
      }
    }

    method Counters() returns (byRule: Totals, defaultDeny: nat)
      ensures byRule == ByRule(View()) && defaultDeny == Denied(View())
    {
      defaultDeny := defaultDenyAccum + counters[CTR_DEFAULT_DENY];
      byRule := counterAccum;
      for idx := 0 to |idxToRuleId|
        invariant byRule == CreditAll(counterAccum, idxToRuleId, counters, idx)
      {
        byRule := Credit(byRule, idxToRuleId[idx], counters[idx]);
      }
    }
  }
}
