/** The controller's key-epoch table. Each rotation step is one transaction
    guarded by the state it expects, so drivers may act on stale decisions. */
module EpochTable {
  import opened Outcomes

  type Gateway = nat
  type Epoch = nat

  /** Stands in for a key the gateway has not submitted yet. */
  const SENTINEL: string := "awaiting-submission"

  datatype KeyState = Pending | Active | Retiring

  datatype Row = Row(pubkey: string, state: KeyState)

  type Rows = map<Epoch, Row>

  /** `live` holds the gateways whose status is active. */
  datatype Table = Table(keys: map<Gateway, Rows>, live: set<Gateway>, revision: nat)

  datatype CasOutcome = Applied | NoMatch

  datatype DropOutcome = Dropped | RowAbsent | RowSuperseded(state: KeyState)

  function RowsOf(t: Table, g: Gateway): Rows {
    if g in t.keys then t.keys[g] else map[]
  }

  function WithRows(t: Table, g: Gateway, rows: Rows): Table {
    t.(keys := t.keys[g := rows], revision := t.revision + 1)
  }

  predicate Real(r: Row) {
    r.pubkey != SENTINEL
  }

  // ---- the next epoch number --------------------------------------------

  /** One above the highest epoch on file, or zero. */
  predicate IsNext(s: set<Epoch>, n: nat) {
    (forall e :: e in s ==> e < n) && (n > 0 ==> n - 1 in s)
  }

  ghost function NextEpoch(s: set<Epoch>): (n: nat)
    ensures IsNext(s, n)
    decreases |s|
  {
    if s == {} then 0
    else
      var e :| e in s;
      var n := NextEpoch(s - {e});
      assert s == (s - {e}) + {e};
      if e < n then n else e + 1
  }

  method ComputeNext(s: set<Epoch>) returns (n: nat)
    ensures n == NextEpoch(s)
  {
    n := 0;
    var left := s;
    while left != {}
      invariant left <= s && IsNext(s - left, n)
      decreases |left|
    {
      var e :| e in left;
      left := left - {e};
      if n <= e {
        n := e + 1;
      }
    }
    assert s - left == s;
  }

  // ---- what each transaction does ---------------------------------------

  predicate CanSet(rows: Rows, e: Epoch) {
    e in rows && rows[e] == Row(SENTINEL, Pending)
  }

  predicate CanPromote(rows: Rows, e: Epoch) {
    e in rows && rows[e].state == Pending && Real(rows[e])
  }

  predicate CanRetire(rows: Rows, e: Epoch) {
    e in rows && rows[e].state == Retiring
  }

  predicate CanDrop(rows: Rows, e: Epoch) {
    e in rows && rows[e].state == Pending
  }

  ghost function Rotated(rows: Rows): Rows {
    rows[NextEpoch(rows.Keys) := Row(SENTINEL, Pending)]
  }

  function Demoted(rows: Rows): Rows {
    map e | e in rows :: if rows[e].state == Active then rows[e].(state := Retiring) else rows[e]
  }

  function Promoted(rows: Rows, e: Epoch): Rows
    requires e in rows
  {
    Demoted(rows)[e := rows[e].(state := Active)]
  }

  class EpochStore {
    var keys: map<Gateway, Rows>
    var live: set<Gateway>
    var revision: nat

    function View(): Table
      reads this
    {
      Table(keys, live, revision)
    }

    constructor ()
      ensures View() == Table(map[], {}, 0)
    {
      keys, live, revision := map[], {}, 0;
    }

    method RotateKey(g: Gateway) returns (epoch: Option<Epoch>)
      modifies this
      ensures View() == After(old(View()), Rotate(g))
      ensures epoch.Some? <==> g in old(live)
      ensures epoch.Some? ==> epoch.value == NextEpoch(RowsOf(old(View()), g).Keys)
    {
      if g !in live {
        return None;
      }
      var rows := RowsOf(View(), g);
      var n := ComputeNext(rows.Keys);
      keys := keys[g := rows[n := Row(SENTINEL, Pending)]];
      revision := revision + 1;
      return Some(n);
    }

    method SetEpochPubkey(g: Gateway, e: Epoch, pubkey: string) returns (outcome: CasOutcome)
      modifies this
      ensures View() == After(old(View()), SetKey(g, e, pubkey))
      ensures outcome == Applied <==> CanSet(RowsOf(old(View()), g), e)
    {
      var rows := RowsOf(View(), g);
      if e !in rows || rows[e] != Row(SENTINEL, Pending) {
        return NoMatch;
      }
      keys := keys[g := rows[e := rows[e].(pubkey := pubkey)]];
      revision := revision + 1;
      return Applied;
    }

    method PromoteEpoch(g: Gateway, e: Epoch) returns (outcome: CasOutcome)
      modifies this
      ensures View() == After(old(View()), Promote(g, e))
      ensures outcome == Applied <==> CanPromote(RowsOf(old(View()), g), e)
    {
      var rows := RowsOf(View(), g);
      if !CanPromote(rows, e) {
        return NoMatch;
      }
      var demoted := Demoted(rows);
      keys := keys[g := demoted[e := rows[e].(state := Active)]];
      revision := revision + 1;
      return Applied;
    }

    method RetireEpoch(g: Gateway, e: Epoch) returns (outcome: CasOutcome)
      modifies this
      ensures View() == After(old(View()), Retire(g, e))
      ensures outcome == Applied <==> CanRetire(RowsOf(old(View()), g), e)
    {
      var rows := RowsOf(View(), g);
      if !CanRetire(rows, e) {
        return NoMatch;
      }
      keys := keys[g := rows - {e}];
      revision := revision + 1;
      return Applied;
    }

    /** The answer is exact: it says what state the row was in. */
    method DropPendingEpoch(g: Gateway, e: Epoch) returns (outcome: DropOutcome)
      modifies this
      ensures View() == After(old(View()), Drop(g, e))
      ensures outcome == Dropped <==> CanDrop(RowsOf(old(View()), g), e)
      ensures outcome == RowAbsent <==> e !in RowsOf(old(View()), g)
      ensures outcome.RowSuperseded? ==>
                e in RowsOf(old(View()), g) && RowsOf(old(View()), g)[e].state == outcome.state != Pending
    {
      var rows := RowsOf(View(), g);
      if !CanDrop(rows, e) {
        if e !in rows {
          return RowAbsent;
        }
        return RowSuperseded(rows[e].state);
      }
      keys := keys[g := rows - {e}];
      revision := revision + 1;
      return Dropped;
    }
  }

  // ---- any sequence of transactions -------------------------------------

  datatype Op =
    | Enroll(g: Gateway, pubkey: string)
    | Leave(g: Gateway)
    | Rotate(g: Gateway)
    | SetKey(g: Gateway, e: Epoch, pubkey: string)
    | Promote(g: Gateway, e: Epoch)
    | Retire(g: Gateway, e: Epoch)
    | Drop(g: Gateway, e: Epoch)

  predicate Matches(t: Table, op: Op) {
    match op
    case Enroll(g, _) => g !in t.keys
    case Leave(g) => g in t.live
    case Rotate(g) => g in t.live
    case SetKey(g, e, _) => CanSet(RowsOf(t, g), e)
    case Promote(g, e) => CanPromote(RowsOf(t, g), e)
    case Retire(g, e) => CanRetire(RowsOf(t, g), e)
    case Drop(g, e) => CanDrop(RowsOf(t, g), e)
  }

  ghost function After(t: Table, op: Op): Table {
    if !Matches(t, op) then t
    else
      var rows := RowsOf(t, op.g);
      match op
      case Enroll(g, pubkey) => WithRows(t, g, map[0 := Row(pubkey, Active)]).(live := t.live + {g})
      case Leave(g) => t.(live := t.live - {g}, revision := t.revision + 1)
      case Rotate(g) => WithRows(t, g, Rotated(rows))
      case SetKey(g, e, pubkey) => WithRows(t, g, rows[e := rows[e].(pubkey := pubkey)])
      case Promote(g, e) => WithRows(t, g, Promoted(rows, e))
      case Retire(g, e) => WithRows(t, g, rows - {e})
      case Drop(g, e) => WithRows(t, g, rows - {e})
  }

  ghost function Run(ops: seq<Op>): Table {
    if ops == [] then Table(map[], {}, 0) else After(Run(ops[..|ops| - 1]), ops[|ops| - 1])
  }

  predicate OneActive(rows: Rows) {
    exists e :: e in rows && rows[e].state == Active && Real(rows[e]) && OnlyActive(rows, e)
  }

  predicate OnlyActive(rows: Rows, e: Epoch) {
    forall other :: other in rows && rows[other].state == Active ==> other == e
  }

  /** The one active epoch. */
  ghost function ActiveOf(rows: Rows): Epoch
    requires OneActive(rows)
  {
    var e :| e in rows && rows[e].state == Active && Real(rows[e]) && OnlyActive(rows, e);
    e
  }

  predicate RealEnrollments(ops: seq<Op>) {
    forall i :: 0 <= i < |ops| && ops[i].Enroll? ==> ops[i].pubkey != SENTINEL
  }

  lemma RowsStep(t: Table, op: Op, g: Gateway)
    requires g in t.keys ==> OneActive(t.keys[g])
    requires op.Enroll? ==> op.pubkey != SENTINEL
    requires t.live <= t.keys.Keys
    ensures g in After(t, op).keys ==> OneActive(After(t, op).keys[g])
  {
    if Matches(t, op) && op.g == g && g in t.keys {
      var rows := t.keys[g];
      var a := ActiveOf(rows);
      var rows' := After(t, op).keys[g];
      var a' := if op.Promote? then op.e else a;
      assert a' in rows' && rows'[a'].state == Active && Real(rows'[a']) && OnlyActive(rows', a');
    } else if Matches(t, op) && op.g == g {
      assert After(t, op).keys[g] == map[0 := Row(op.pubkey, Active)];
      assert OnlyActive(map[0 := Row(op.pubkey, Active)], 0);
    }
  }

  lemma {:induction false} LiveAreEnrolled(ops: seq<Op>)
    ensures Run(ops).live <= Run(ops).keys.Keys
  {
    if ops == [] {
    } else {
      LiveAreEnrolled(ops[..|ops| - 1]);
    }
  }

  /** Whatever order drivers' decisions land in, however stale: every enrolled
      gateway has exactly one active epoch, and its key is a real one. */
  lemma {:induction false} AlwaysOneActive(ops: seq<Op>, g: Gateway)
    requires RealEnrollments(ops)
    ensures g in Run(ops).keys ==> OneActive(Run(ops).keys[g])
  {
    if ops == [] {
    } else {
      var before := ops[..|ops| - 1];
      AlwaysOneActive(before, g);
      LiveAreEnrolled(before);
      RowsStep(Run(before), ops[|ops| - 1], g);
    }
  }

  /** How many of the transactions matched their guard. */
  ghost function AppliedCount(ops: seq<Op>): nat {
    if ops == [] then 0
    else
      var before := ops[..|ops| - 1];
      AppliedCount(before) + if Matches(Run(before), ops[|ops| - 1]) then 1 else 0
  }

  /** The revision counts the transactions that applied, no more and no less. */
  lemma {:induction false} RevisionCountsApplied(ops: seq<Op>)
    ensures Run(ops).revision == AppliedCount(ops)
  {
    if ops == [] {
    } else {
      RevisionCountsApplied(ops[..|ops| - 1]);
    }
  }

  /** A transaction changes the table iff it matched, and then only its own
      gateway's rows. */
  lemma ChangesIffMatches(t: Table, op: Op, other: Gateway)
    requires other != op.g
    ensures After(t, op) == t <==> !Matches(t, op)
    ensures RowsOf(After(t, op), other) == RowsOf(t, other)
  {
    if Matches(t, op) {
      assert After(t, op).revision == t.revision + 1;
    }
  }

  /** Dropping never touches an active or a retiring row. */
  lemma DropOnlyPending(t: Table, g: Gateway, e: Epoch, k: Epoch)
    requires k in RowsOf(t, g) && RowsOf(t, g)[k].state != Pending
    ensures k in RowsOf(After(t, Drop(g, e)), g)
    ensures RowsOf(After(t, Drop(g, e)), g)[k] == RowsOf(t, g)[k]
  {
  }

  /** A retiring row leaves that state only by being deleted, unless its number
      is issued again: a row that is not deleted never becomes active again. */
  lemma RetiringIsTerminal(t: Table, op: Op, g: Gateway, e: Epoch)
    requires e in RowsOf(t, g) && RowsOf(t, g)[e].state == Retiring
    ensures e !in RowsOf(After(t, op), g) ==> op == Retire(g, e)
    ensures e in RowsOf(After(t, op), g) ==> RowsOf(After(t, op), g)[e] == RowsOf(t, g)[e]
  {
    if op.Rotate? {
      assert NextEpoch(RowsOf(t, op.g).Keys) !in RowsOf(t, op.g);
    }
  }

  // ---- the active epoch can go down -------------------------------------

  /** A promote moves the active mark, wherever the promoted epoch lies. */
  lemma PromoteMovesActive(rows: Rows, e: Epoch)
    requires OneActive(rows) && CanPromote(rows, e)
    ensures OneActive(Promoted(rows, e)) && ActiveOf(Promoted(rows, e)) == e
    ensures var a := ActiveOf(rows);
            a != e && a in Promoted(rows, e) && Promoted(rows, e)[a] == rows[a].(state := Retiring)
  {
    var rows' := Promoted(rows, e);
    var a := ActiveOf(rows);
    assert e in rows' && rows'[e].state == Active && OnlyActive(rows', e);
  }

  /** Any other transaction leaves the mark where it is. */
  lemma OthersKeepActive(t: Table, op: Op, g: Gateway)
    requires g in t.keys && OneActive(t.keys[g]) && t.live <= t.keys.Keys
    requires !(op.Promote? && op.g == g && CanPromote(t.keys[g], op.e))
    ensures g in After(t, op).keys && OneActive(After(t, op).keys[g])
    ensures ActiveOf(After(t, op).keys[g]) == ActiveOf(t.keys[g])
  {
    var rows, rows' := t.keys[g], After(t, op).keys[g];
    var a := ActiveOf(rows);
    if op.Rotate? && op.g == g {
      assert NextEpoch(rows.Keys) !in rows;
    }
    assert a in rows' && rows'[a].state == Active && Real(rows'[a]) && OnlyActive(rows', a);
  }

  /** After any transactions, the next one takes a gateway's active epoch down
      exactly when it promotes a keyed pending epoch below the active one; nothing
      in its guard excludes that. */
  lemma ActiveFallsIff(ops: seq<Op>, op: Op, g: Gateway)
    requires RealEnrollments(ops) && g in Run(ops).keys
    ensures var rows := Run(ops).keys[g];
            && g in After(Run(ops), op).keys && OneActive(rows) && OneActive(After(Run(ops), op).keys[g])
            && (ActiveOf(After(Run(ops), op).keys[g]) < ActiveOf(rows) <==>
                op.Promote? && op.g == g && CanPromote(rows, op.e) && op.e < ActiveOf(rows))
  {
    AlwaysOneActive(ops, g);
    LiveAreEnrolled(ops);
    var rows := Run(ops).keys[g];
    if op.Promote? && op.g == g && CanPromote(rows, op.e) {
      PromoteMovesActive(rows, op.e);
    } else {
      OthersKeepActive(Run(ops), op, g);
    }
  }

  /** One more transaction that matches, by what it does to its own rows. */
  lemma Then(ops: seq<Op>, op: Op, g: Gateway)
    requires op.g == g && Matches(Run(ops), op) && g in Run(ops).live && !op.Enroll? && !op.Leave?
    ensures Run(ops + [op]) == After(Run(ops), op) && g in Run(ops + [op]).live
  {
    assert (ops + [op])[..|ops + [op]| - 1] == ops;
  }

  lemma ThenRotate(ops: seq<Op>, g: Gateway, n: nat)
    requires g in Run(ops).live && IsNext(RowsOf(Run(ops), g).Keys, n)
    ensures g in Run(ops + [Rotate(g)]).live
    ensures RowsOf(Run(ops + [Rotate(g)]), g) == RowsOf(Run(ops), g)[n := Row(SENTINEL, Pending)]
  {
    Then(ops, Rotate(g), g);
  }

  lemma ThenSet(ops: seq<Op>, g: Gateway, e: Epoch, pubkey: string)
    requires g in Run(ops).live && CanSet(RowsOf(Run(ops), g), e)
    ensures g in Run(ops + [SetKey(g, e, pubkey)]).live
    ensures RowsOf(Run(ops + [SetKey(g, e, pubkey)]), g) == RowsOf(Run(ops), g)[e := Row(pubkey, Pending)]
  {
    Then(ops, SetKey(g, e, pubkey), g);
  }

  /** A rotation begun and keyed, on top of whatever is on file. */
  lemma ThenKeyed(ops: seq<Op>, g: Gateway, e: Epoch, pubkey: string) returns (longer: seq<Op>)
    requires g in Run(ops).live && IsNext(RowsOf(Run(ops), g).Keys, e)
    ensures longer == ops + [Rotate(g)] + [SetKey(g, e, pubkey)] && g in Run(longer).live
    ensures RowsOf(Run(longer), g) == RowsOf(Run(ops), g)[e := Row(pubkey, Pending)]
  {
    ThenRotate(ops, g, e);
    ThenSet(ops + [Rotate(g)], g, e, pubkey);
    longer := ops + [Rotate(g)] + [SetKey(g, e, pubkey)];
  }

  lemma ThenPromote(ops: seq<Op>, g: Gateway, e: Epoch)
    requires g in Run(ops).live && CanPromote(RowsOf(Run(ops), g), e)
    ensures g in Run(ops + [Promote(g, e)]).live
    ensures RowsOf(Run(ops + [Promote(g, e)]), g) == Promoted(RowsOf(Run(ops), g), e)
  {
    Then(ops, Promote(g, e), g);
  }

  lemma Enrolled(g: Gateway, k0: string)
    ensures g in Run([Enroll(g, k0)]).live
    ensures RowsOf(Run([Enroll(g, k0)]), g) == map[0 := Row(k0, Active)]
  {
    var ops := [Enroll(g, k0)];
    assert ops[..|ops| - 1] == [];
  }

  lemma TwoStacked(g: Gateway, k0: string, k1: string, k2: string) returns (ops: seq<Op>)
    requires k0 != SENTINEL && k1 != SENTINEL && k2 != SENTINEL
    ensures RealEnrollments(ops) && g in Run(ops).live
    ensures RowsOf(Run(ops), g) == map[0 := Row(k0, Active), 1 := Row(k1, Pending), 2 := Row(k2, Pending)]
  {
    ops := [Enroll(g, k0)];
    Enrolled(g, k0);
    ops := ThenKeyed(ops, g, 1, k1);
    ops := ThenKeyed(ops, g, 2, k2);
  }

  /** With two rotations stacked, a promote decided for the first and executed
      after the second's takes the active epoch back from two to one. */
  lemma StalePromoteLowers(g: Gateway, k0: string, k1: string, k2: string) returns (ops: seq<Op>)
    requires k0 != SENTINEL && k1 != SENTINEL && k2 != SENTINEL
    ensures RealEnrollments(ops)
    ensures RowsOf(Run(ops), g) == map[0 := Row(k0, Retiring), 1 := Row(k1, Pending), 2 := Row(k2, Active)]
    ensures RowsOf(Run(ops + [Promote(g, 1)]), g) ==
            map[0 := Row(k0, Retiring), 1 := Row(k1, Active), 2 := Row(k2, Retiring)]
  {
    ops := TwoStacked(g, k0, k1, k2);
    ThenPromote(ops, g, 2);
    ops := ops + [Promote(g, 2)];
    ThenPromote(ops, g, 1);
  }
}
