/**
 * Dedup claims (packages/collect/fulcra_collect/db.py, `claim_dedup_keys` and
 * `unclaim_dedup_keys`): exactly-once bookkeeping by one table of claimed keys, over every
 * interleaving of claims, POSTs and releases.
 */
module DedupClaims {
  import opened Wrappers

  datatype DbError = Failed

  function Distinct(keys: seq<string>): set<string> {
    set k | k in keys
  }

  /** The `forwarded_events` table. */
  class ForwardedEvents {
    var rows: set<string>

    constructor ()
      ensures rows == {}
    {
      rows := {};
    }

    /** `INSERT OR IGNORE`: whether a row was inserted. */
    method Insert(key: string) returns (inserted: bool)
      modifies this
      ensures rows == old(rows) + {key} && inserted == (key !in old(rows))
    {
      inserted := key !in rows;
      rows := rows + {key};
    }

    /**
     * `claim_dedup_keys`: one transaction, which fails before its `failsAt`-th statement if it has
     * that many (the last one commits). New is true exactly when no distinct key was there before;
     * a key repeated in the set never counts against it. A failed claim changes nothing.
     */
    method Claim(keys: seq<string>, failsAt: Option<nat>) returns (r: Result<bool, DbError>)
      modifies this
      ensures r.Err? <==> failsAt.Some? && failsAt.value <= |Distinct(keys)|
      ensures r.Err? ==> rows == old(rows)
      ensures r.Ok? ==> rows == old(rows) + Distinct(keys) && r.value == (Distinct(keys) !! old(rows))
    {
      var before := rows;
      var todo := Distinct(keys);
      var present, statement: nat := 0, 0;
      while todo != {}
        invariant todo <= Distinct(keys) && statement + |todo| == |Distinct(keys)|
        invariant rows == before + (Distinct(keys) - todo)
        invariant present == 0 <==> (Distinct(keys) - todo) !! before
        invariant failsAt.Some? ==> statement <= failsAt.value
        decreases |todo|
      {
        if failsAt == Some(statement) {
          rows := before;
          return Err(Failed);
        }
        var key :| key in todo;
        ghost var done := Distinct(keys) - todo;
        var inserted := Insert(key);
        if !inserted { present := present + 1; }
        todo := todo - {key};
        assert Distinct(keys) - todo == done + {key};
        statement := statement + 1;
      }
      if failsAt == Some(statement) {
        rows := before;
        return Err(Failed);
      }
      assert Distinct(keys) - todo == Distinct(keys);
      r := Ok(present == 0);
    }

    /** `unclaim_dedup_keys`. */
    method Unclaim(keys: seq<string>, fails: bool) returns (r: Result<bool, DbError>)
      modifies this
      ensures r.Err? <==> fails && keys != []
      ensures rows == if r.Err? then old(rows) else old(rows) - Distinct(keys)
    {
      if keys == [] {
        assert Distinct(keys) == {};
        return Ok(true);
      }
      var before := rows;
      var todo := Distinct(keys);
      while todo != {}
        invariant todo <= Distinct(keys) && rows == before - (Distinct(keys) - todo)
        decreases |todo|
      {
        var key :| key in todo;
        rows := rows - {key};
        todo := todo - {key};
      }
      if fails {
        rows := before;
        return Err(Failed);
      }
      r := Ok(true);
    }
  }

  // ---- Claim, POST, release -----------------------------------------------------------------------

  /** Where an event is: not claimed, its claim won, its claim lost, or posted for good. */
  datatype Phase = Idle | Won | Lost | Posted

  datatype Event = Event(keys: set<string>, phase: Phase)

  type Id = nat

  datatype State = State(rows: set<string>, events: map<Id, Event>)

  datatype Move =
    | Claim(id: Id)
    | RolledBack(id: Id)
    | PostSucceeds(id: Id)
    | PostFails(id: Id)
    | TryAgain(id: Id)

  function WithPhase(s: State, id: Id, phase: Phase): map<Id, Event>
    requires id in s.events
  {
    s.events[id := s.events[id].(phase := phase)]
  }

  predicate CanMove(s: State, m: Move) {
    m.id in s.events
    && match m
       case Claim(id) => s.events[id].phase == Idle
       case RolledBack(id) => s.events[id].phase == Idle
       case PostSucceeds(id) => s.events[id].phase == Won
       case PostFails(id) => s.events[id].phase == Won
       case TryAgain(id) => s.events[id].phase == Lost
  }

  /** One atomic move: transactions are serialised by the database's write lock. */
  function Next(s: State, m: Move): State
    requires CanMove(s, m)
  {
    match m
    case Claim(id) =>
      var keys := s.events[id].keys;
      State(s.rows + keys, WithPhase(s, id, if keys !! s.rows then Won else Lost))
    case RolledBack(_) => s
    case PostSucceeds(id) => s.(events := WithPhase(s, id, Posted))
    case PostFails(id) => State(s.rows - s.events[id].keys, WithPhase(s, id, Idle))
    case TryAgain(id) => s.(events := WithPhase(s, id, Idle))
  }

  predicate Holds(s: State, id: Id) {
    id in s.events && s.events[id].phase in {Won, Posted}
  }

  /** Holders' keys are claimed, and no two holders share one. */
  ghost predicate Inv(s: State) {
    && (forall id | Holds(s, id) :: s.events[id].keys <= s.rows)
    && (forall i, j | Holds(s, i) && Holds(s, j) && i != j :: s.events[i].keys !! s.events[j].keys)
  }

  predicate Initial(s: State) {
    s.rows == {} && forall id | id in s.events :: s.events[id].phase == Idle
  }

  lemma {:induction false} MoveKeeps(s: State, m: Move)
    requires Inv(s) && CanMove(s, m)
    ensures Inv(Next(s, m))
  {
    var next := Next(s, m);
    forall i, j | Holds(next, i) && Holds(next, j) && i != j ensures next.events[i].keys !! next.events[j].keys {
      if i != m.id { assert Holds(s, i); }
      if j != m.id { assert Holds(s, j); }
      if m.PostSucceeds? { assert Holds(s, m.id); }
    }
    forall id | Holds(next, id) ensures next.events[id].keys <= next.rows {
      if id != m.id {
        assert Holds(s, id);
        if m.PostFails? { assert Holds(s, m.id); }
      } else if m.PostSucceeds? {
        assert Holds(s, m.id);
      }
    }
  }

  function After(s: State, moves: seq<Move>): Option<State>
    decreases |moves|
  {
    if moves == [] then Some(s)
    else match After(s, moves[..|moves| - 1])
         case None => None
         case Some(mid) => if CanMove(mid, moves[|moves| - 1]) then Some(Next(mid, moves[|moves| - 1])) else None
  }

  lemma {:induction false} RunKeeps(s: State, moves: seq<Move>)
    requires Initial(s) && After(s, moves).Some?
    ensures Inv(After(s, moves).value) && SameKeys(s, After(s, moves).value)
    decreases |moves|
  {
    if moves != [] {
      RunKeeps(s, moves[..|moves| - 1]);
      MoveKeeps(After(s, moves[..|moves| - 1]).value, moves[|moves| - 1]);
    }
  }

  /** An event's keys never change. */
  ghost predicate SameKeys(s: State, t: State) {
    s.events.Keys == t.events.Keys && forall id | id in s.events :: s.events[id].keys == t.events[id].keys
  }

  /** In every interleaving posted events have pairwise disjoint keys, and of overlapping events at most
   * one holds a won claim. */
  lemma {:induction false} PostedOnce(s: State, moves: seq<Move>, i: Id, j: Id)
    requires Initial(s) && After(s, moves).Some? && i != j && i in s.events && j in s.events
    requires s.events[i].keys * s.events[j].keys != {}
    ensures var t := After(s, moves).value;
            i in t.events && j in t.events
              && !(t.events[i].phase in {Won, Posted} && t.events[j].phase in {Won, Posted})
  {
    RunKeeps(s, moves);
    var t := After(s, moves).value;
    assert !(Holds(t, i) && Holds(t, j));
  }

  /** Once posted, an event stays posted and its keys stay claimed: no later claim that overlaps it wins. */
  lemma {:induction false} PostedStays(s: State, moves: seq<Move>, more: seq<Move>, id: Id)
    requires Initial(s) && After(s, moves).Some? && After(After(s, moves).value, more).Some?
    requires id in After(s, moves).value.events && After(s, moves).value.events[id].phase == Posted
    ensures var t := After(After(s, moves).value, more).value;
            && Inv(t) && SameKeys(s, t) && id in t.events && t.events[id].phase == Posted && t.events[id].keys <= t.rows
            && forall m: Move | m.Claim? && CanMove(t, m) && t.events[m.id].keys * t.events[id].keys != {} ::
                 Next(t, m).events[m.id].phase == Lost
    decreases |more|
  {
    RunKeeps(s, moves);
    var t := After(After(s, moves).value, more).value;
    if more != [] {
      PostedStays(s, moves, more[..|more| - 1], id);
      MoveKeeps(After(After(s, moves).value, more[..|more| - 1]).value, more[|more| - 1]);
    }
    assert Holds(t, id);
    forall m: Move | m.Claim? && CanMove(t, m) && t.events[m.id].keys * t.events[id].keys != {}
      ensures Next(t, m).events[m.id].phase == Lost
    {
      var k :| k in t.events[m.id].keys * t.events[id].keys;
      assert k in t.rows;
    }
  }

  /** Keys that are claimed although no holder has them: left by claims that lost. */
  ghost predicate Orphan(s: State, key: string) {
    key in s.rows && forall id | Holds(s, id) :: key !in s.events[id].keys
  }

  /** A losing claim leaves orphans exactly on its keys that were not claimed before. */
  lemma {:induction false} LosingClaimLeavesOrphans(s: State, id: Id, key: string)
    requires Inv(s) && CanMove(s, Claim(id)) && !(s.events[id].keys !! s.rows) && key in s.events[id].keys
    ensures Orphan(Next(s, Claim(id)), key) <==> key !in s.rows || Orphan(s, key)
  {
    var next := Next(s, Claim(id));
    forall i ensures Holds(next, i) <==> Holds(s, i) {
    }
    if key !in s.rows {
      forall i | Holds(next, i) ensures key !in next.events[i].keys { assert Holds(s, i); }
    }
    if key in s.rows && !Orphan(s, key) {
      var i :| Holds(s, i) && key in s.events[i].keys;
      assert Holds(next, i);
    }
  }

  /**
   * So a claim can lose to an event that was never posted: it wins exactly if its keys meet neither
   * a holder's nor an orphan.
   */
  lemma {:induction false} ClaimWinsIff(s: State, id: Id)
    requires Inv(s) && CanMove(s, Claim(id))
    ensures Next(s, Claim(id)).events[id].phase == Won <==>
            (forall i | Holds(s, i) :: s.events[i].keys !! s.events[id].keys)
              && (forall key | key in s.events[id].keys :: !Orphan(s, key))
  {
    var keys := s.events[id].keys;
    if keys !! s.rows {
      forall i | Holds(s, i) ensures s.events[i].keys !! keys { assert s.events[i].keys <= s.rows; }
    }
    if !(keys !! s.rows) {
      var key :| key in keys && key in s.rows;
      if !Orphan(s, key) { var i :| Holds(s, i) && key in s.events[i].keys; }
    }
  }

  /** A run in which an event is blocked by a claim that lost, and nothing sharing a key with it was ever posted. */
  lemma {:induction false} BlockedWithoutPost() returns (s: State, moves: seq<Move>)
    ensures Initial(s) && After(s, moves).Some?
    ensures var t := After(s, moves).value;
            && 2 in t.events && t.events[2].phase == Lost
            && forall i | i in t.events && i != 2 :: t.events[i].phase == Posted ==>
                 t.events[i].keys !! t.events[2].keys
  {
    s := State({}, map[0 := Event({"a"}, Idle), 1 := Event({"a", "b"}, Idle), 2 := Event({"b"}, Idle)]);
    moves := [Claim(0), PostSucceeds(0), Claim(1), Claim(2)];
    var s1, s2 := Next(s, Claim(0)), Next(Next(s, Claim(0)), PostSucceeds(0));
    var s3 := Next(s2, Claim(1));
    assert "a" in s2.rows && "a" in s2.events[1].keys;
    assert "b" in s3.rows && "b" in s3.events[2].keys;
    assert moves[..3] == [Claim(0), PostSucceeds(0), Claim(1)] && moves[..3][..2] == [Claim(0), PostSucceeds(0)];
    assert moves[..3][..2][..1] == [Claim(0)] && moves[..3][..2][..1][..0] == [];
    assert After(s, [Claim(0)]) == Some(s1);
    assert After(s, moves[..3][..2]) == Some(s2);
    assert After(s, moves[..3]) == Some(s3);
    assert "a" != "b";
  }
}
