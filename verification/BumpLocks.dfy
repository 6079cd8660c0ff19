/**
 The row locks of overlapping bump loops.

 A call of the RBAC service locks at most one row of its own (the group, role, assignment or permission
 it changes, unique by its key or by the index on ACTIVE rows) and then, one upsert at a time, the version
 row of every affected user, in the order of sorted(set(...)).
 */
module BumpLocks {
  import opened Options
  import opened Text

  type TenantId = int
  type TxId = int

  datatype Row = OwnRow(id: int) | VersionRow(tenant: TenantId, user: string)

  datatype Call = Call(own: Option<int>, tenant: TenantId, affected: seq<string>)

  /** The rows a transaction locks, in order, how many it holds, and whether it has ended. */
  datatype Tx = Tx(rows: seq<Row>, held: nat, ended: bool)

  type State = map<TxId, Tx>

  function VersionRows(tenant: TenantId, users: seq<string>): (rows: seq<Row>)
    ensures |rows| == |users| && forall i :: 0 <= i < |users| ==> rows[i] == VersionRow(tenant, users[i])
  {
    seq(|users|, i requires 0 <= i < |users| => VersionRow(tenant, users[i]))
  }

  /** The statements of a call that lock rows, as `_bump_versions` orders them. */
  function Rows(c: Call): seq<Row> {
    (if c.own.Some? then [OwnRow(c.own.value)] else []) + VersionRows(c.tenant, SortedSet(c.affected))
  }

  predicate WellFormed(s: State) {
    forall t :: t in s ==> s[t].held <= |s[t].rows|
  }

  /** Every transaction is some call, however far it has come. */
  ghost predicate CallsOnly(s: State) {
    forall t :: t in s ==> exists c :: s[t].rows == Rows(c)
  }

  /** Commit and rollback release every lock. */
  predicate Holds(x: Tx, r: Row)
    requires x.held <= |x.rows|
  {
    !x.ended && r in x.rows[..x.held]
  }

  ghost predicate Free(s: State, t: TxId, r: Row)
    requires WellFormed(s)
  {
    forall u :: u in s && u != t ==> !Holds(s[u], r)
  }

  /** The next statement is a commit, or a lock nobody else holds. */
  ghost predicate CanStep(s: State, t: TxId)
    requires WellFormed(s)
  {
    t in s && !s[t].ended && (s[t].held == |s[t].rows| || Free(s, t, s[t].rows[s[t].held]))
  }

  function Step(s: State, t: TxId): State
    requires WellFormed(s) && t in s && !s[t].ended
  {
    if s[t].held == |s[t].rows| then s[t := s[t].(ended := true)] else s[t := s[t].(held := s[t].held + 1)]
  }

  // ---------------------------------------------------------------------------------------------
  // The order
  // ---------------------------------------------------------------------------------------------

  /** Own rows before version rows, and these by user within a tenant. */
  predicate Before(a: Row, b: Row) {
    b.VersionRow? && (a.OwnRow? || (a.tenant == b.tenant && Less(a.user, b.user)))
  }

  lemma BeforeIsStrict(a: Row, b: Row, c: Row)
    ensures !Before(a, a)
    ensures Before(a, b) && Before(b, c) ==> Before(a, c)
  {
    if a.VersionRow? {
      LessIsTotal(a.user, a.user);
      if Before(a, b) && Before(b, c) {
        LessIsTransitive(a.user, b.user, c.user);
      }
    }
  }

  /** Each call locks its rows in this order. */
  lemma CallsClimb(c: Call, i: nat, j: nat)
    requires i < j < |Rows(c)|
    ensures Before(Rows(c)[i], Rows(c)[j])
  {
    var users := SortedSet(c.affected);
    var first := if c.own.Some? then 1 else 0;
    assert Rows(c)[j] == VersionRow(c.tenant, users[j - first]);
    if i >= first {
      assert Rows(c)[i] == VersionRow(c.tenant, users[i - first]);
    }
  }

  // ---------------------------------------------------------------------------------------------
  // No deadlock
  // ---------------------------------------------------------------------------------------------

  /** Every row that is ever locked. */
  function AllRows(s: State): set<Row> {
    set t, r | t in s && r in s[t].rows :: r
  }

  /** The rows above the one t needs next; nothing when it is about to commit. */
  function Above(s: State, t: TxId): set<Row>
    requires WellFormed(s) && t in s
  {
    if s[t].held == |s[t].rows| then {} else set r | r in AllRows(s) && Before(s[t].rows[s[t].held], r)
  }

  /** Whoever holds the row t needs has fewer rows above it. */
  lemma HolderIsAhead(s: State, t: TxId, u: TxId)
    requires WellFormed(s) && CallsOnly(s) && t in s && u in s && s[t].held < |s[t].rows|
    requires Holds(s[u], s[t].rows[s[t].held]) && s[u].held < |s[u].rows|
    ensures Above(s, u) < Above(s, t)
  {
    var x, y := s[t].rows[s[t].held], s[u].rows[s[u].held];
    var c :| s[u].rows == Rows(c);
    var i :| 0 <= i < s[u].held && s[u].rows[i] == x;
    CallsClimb(c, i, s[u].held);
    hide Rows, Before, CallsOnly;
    assert y in s[u].rows && y in AllRows(s);
    forall r | r in Above(s, u) ensures r in Above(s, t) {
      BeforeIsStrict(x, y, r);
    }
    BeforeIsStrict(y, y, y);
    assert y in Above(s, t);
    assert y !in Above(s, u);
  }

  /** From any unfinished call, following who holds what leads to one that can go on. */
  lemma {:induction false} SomeoneGoesOn(s: State, t: TxId) returns (u: TxId)
    requires WellFormed(s) && CallsOnly(s) && t in s && !s[t].ended
    ensures CanStep(s, u)
    decreases Above(s, t)
  {
    u := t;
    if s[t].held < |s[t].rows| && !Free(s, t, s[t].rows[s[t].held]) {
      var w :| w in s && w != t && Holds(s[w], s[t].rows[s[t].held]);
      if s[w].held < |s[w].rows| {
        HolderIsAhead(s, t, w);
        u := SomeoneGoesOn(s, w);
      } else {
        u := w;
      }
    }
  }

  /** However many calls overlap and however far each has come, one of the unfinished ones is not waiting. */
  lemma NoBumpDeadlock(s: State, t: TxId)
    requires WellFormed(s) && CallsOnly(s) && t in s && !s[t].ended
    ensures exists u :: CanStep(s, u)
  {
    var u := SomeoneGoesOn(s, t);
  }

  /** Steps left over all calls: each step takes one, so all calls end. */
  function Left(x: Tx): nat
    requires x.held <= |x.rows|
  {
    if x.ended then 0 else |x.rows| - x.held + 1
  }

  lemma EveryStepIsOneLess(s: State, t: TxId)
    requires WellFormed(s) && CallsOnly(s) && CanStep(s, t)
    ensures var s' := Step(s, t);
            && WellFormed(s') && CallsOnly(s') && s'.Keys == s.Keys && Left(s'[t]) == Left(s[t]) - 1
            && forall u :: u in s && u != t ==> s'[u] == s[u]
  {
    var s' := Step(s, t);
    forall u | u in s' ensures exists c :: s'[u].rows == Rows(c) {
      assert u in s && s'[u].rows == s[u].rows;
    }
  }

  /** The sorting is needed: two calls that upsert the same two users in opposite orders wait for each other. */
  lemma UnsortedDeadlocks(a: string, b: string) returns (s: State)
    requires a != b
    ensures WellFormed(s) && 1 in s && 2 in s && !s[1].ended && !s[2].ended
    ensures s[1].rows == VersionRows(1, [a, b]) && s[2].rows == VersionRows(1, [b, a])
    ensures forall t :: !CanStep(s, t)
  {
    s := map[1 := Tx(VersionRows(1, [a, b]), 1, false), 2 := Tx(VersionRows(1, [b, a]), 1, false)];
    assert s[1].rows[..1][0] == VersionRow(1, a) && s[2].rows[..1][0] == VersionRow(1, b);
    assert Holds(s[1], VersionRow(1, a)) && Holds(s[2], VersionRow(1, b));
  }
}
