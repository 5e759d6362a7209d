/** What the invariant means for whole runs: creations are all or nothing, a recovery may be cut anywhere, and
    where the startup sweep departs from the durable deadlines. */
module Lifecycle {
  import opened Prelude
  import opened Records
  import opened Repositories
  import opened Intents
  import opened Settlement
  import opened Attempts

  /******* Creation *******/

  /** The attempt has its row, and its container, if it is still there, is the one that the row names. */
  ghost predicate Owned(s: State, token: Id) {
    exists k :: k in s.db.rows && s.db.rows[k].token == token && At(s, token, Some(s.db.rows[k].nativeId))
  }

  ghost predicate Undone(s: State, token: Id) {
    !HasRow(s.db, token) && !HasIntent(s.db, token) && Absent(s.native, token)
  }

  /** Once an attempt has no intent it is either owned, and adopted if it had to be, or wholly undone. */
  lemma AllOrNothing(s: State, token: Id, rt: Runtime)
    requires Inv(s, rt) && token in s.ledger.issued && !HasIntent(s.db, token)
    ensures Owned(s, token) <==> !Undone(s, token)
    ensures Owned(s, token) && token in s.ledger.awaiting ==> token in s.ledger.adopted
    ensures Owned(s, token) ==> forall n <- s.native :: s.native[n].owner == token && s.native[n].running ==>
      exists k :: k in s.db.rows && s.db.rows[k].token == token && s.db.rows[k].nativeId == n && s.db.rows[k].expiresAt.Some?
  {
    if k :| k in s.db.rows && s.db.rows[k].token == token {
      assert At(s, token, Some(s.db.rows[k].nativeId));
      RunsUnderRow(s, token, k, rt);
    }
  }

  lemma RunsUnderRow(s: State, token: Id, k: Id, rt: Runtime)
    requires Inv(s, rt) && token in s.ledger.issued && !HasIntent(s.db, token) && k in s.db.rows && s.db.rows[k].token == token
    ensures forall n <- s.native :: s.native[n].owner == token && s.native[n].running ==>
      s.db.rows[k].nativeId == n && s.db.rows[k].expiresAt.Some?
  {
  }

  /** An attempt that awaits adoption is always in one of three ways: wholly undone; pending, under the number of its
      token until it is adopted; or adopted, with its row and nothing pending. */
  lemma OneOfThree(s: State, token: Id, rt: Runtime)
    requires Inv(s, rt) && token in s.ledger.awaiting
    ensures Undone(s, token) || HasIntent(s.db, token) || (Owned(s, token) && token in s.ledger.adopted)
    ensures HasIntent(s.db, token) && token !in s.ledger.adopted ==> token in s.db.ops && s.db.ops[token].token == token
    ensures Gone(s.db, token) ==> Undone(s, token)
    ensures Lingers(s.db, token) ==> token in s.ledger.adopted
  {
    assert token in s.ledger.issued by { InvParts(s, rt); }
    hide Owned, Undone, Absent;
    if !HasIntent(s.db, token) {
      AllOrNothing(s, token, rt);
    } else if token !in s.ledger.adopted {
      FirstNumber(s, token, rt);
    }
    if Gone(s.db, token) {
      GoneIsUndone(s, token, rt);
    }
    if Lingers(s.db, token) {
      LingersIsOwned(s, token);
    }
  }

  lemma FirstNumber(s: State, token: Id, rt: Runtime)
    requires Inv(s, rt) && token in s.ledger.awaiting && HasIntent(s.db, token) && token !in s.ledger.adopted
    ensures token in s.db.ops && s.db.ops[token].token == token
  {
    var o :| o in s.db.ops && s.db.ops[o].token == token;
    assert FirstIntent(s.db.ops[o], s.ledger.awaiting, s.ledger.adopted) && s.db.ops[o].id == o by { InvParts(s, rt); }
  }

  lemma GoneIsUndone(s: State, token: Id, rt: Runtime)
    requires Inv(s, rt) && token in s.ledger.issued && Gone(s.db, token)
    ensures Undone(s, token)
  {
    InvParts(s, rt);
    hide Inv, HasRow, HasIntent, Consistent, Known, Labelled, Timed, Adoptable;
  }

  lemma LingersIsOwned(s: State, token: Id)
    requires Lingers(s.db, token)
    ensures !Undone(s, token)
  {
  }

  /** Recovery never undoes what was adopted: only a deletion that somebody asked for does. This holds for a recovery
      that is finished or cut, disturbed or not; if nobody interferes, the container is still there as well. */
  lemma AdoptedIsKept(s0: State, s: State, op: Operation, k: Id, rt: Runtime, calm: bool)
    requires Inv(s0, rt) && Holds(s0, op) && (During(s0, s, op, rt, calm) || After(s0, s, op, rt, calm))
    requires k in s0.db.rows && s0.db.rows[k].token in s0.ledger.adopted && !(op.kind.Delete? && op.token == s0.db.rows[k].token)
    ensures k in s.db.rows && s.db.rows[k].token == s0.db.rows[k].token && s.db.rows[k].nativeId == s0.db.rows[k].nativeId
    ensures calm ==> forall n <- s0.native :: s0.native[n].owner == s0.db.rows[k].token ==> n in s.native
  {
    hide Inv, Holds, Settled;
    if op.kind.Create? {
      NotFinalYet(s0, op, rt);
    }
    RowIsKept(s0, s, op, k, rt, calm);
    if calm {
      SameEnd(s0, s, op, rt);
      hide During, After;
      forall n | n in s0.native && s0.native[n].owner == s0.db.rows[k].token ensures n in s.native {
        NativeAt(s0.native, op, n);
        NativeAt(s.native, op, n);
      }
    }
  }

  lemma RowIsKept(s0: State, s: State, op: Operation, k: Id, rt: Runtime, calm: bool)
    requires During(s0, s, op, rt, calm) || After(s0, s, op, rt, calm)
    requires k in s0.db.rows && (Undoing(op.kind) ==> op.token != s0.db.rows[k].token)
    ensures k in s.db.rows && s.db.rows[k].token == s0.db.rows[k].token && s.db.rows[k].nativeId == s0.db.rows[k].nativeId
  {
    hide Inv, Apart, Settled;
    if s0.db.rows[k].token != op.token {
      OtherRowIs(s.db, s0.db, op.token, k);
    }
  }

  /** Whether it was cut or finished, what is there now is settled like what was there before, or is that. */
  lemma SameEnd(s0: State, s: State, op: Operation, rt: Runtime)
    requires During(s0, s, op, rt, true) || After(s0, s, op, rt, true)
    ensures SettledNative(s.native, op) == SettledNative(s0.native, op) || s.native == SettledNative(s0.native, op)
  {
    hide Inv, OnlyAttempt, Kept, Outcome, Holds, SettledNative, SettledRows;
  }

  /** A pending creation is not final. */
  lemma NotFinalYet(s: State, op: Operation, rt: Runtime)
    requires Inv(s, rt) && Holds(s, op) && op.kind.Create?
    ensures op.token !in s.ledger.adopted
  {
  }

  /** The failing input of the rollback of a creation: it was adopted, so that its intent is gone, and runs; then the
      row could not be read back, and the deletion was not recorded. */
  function Adopted(): State {
    var row := Sandbox(1, 2, Docker, 3, Some(900), map[], Provenance("", "", "", "", "", ""));
    State(Tables(map[1 := row], map[]), map[2 := Container(5, 3, true, false, map[])], Ledger({3}, {3}, {3}, {}, 6))
  }

  /** A call that fails leaves that sandbox as it is: owned, running, with no intent, and with nothing that anybody
      could retry. Only its deadline ends it. */
  lemma AdoptedMayStay(newId: Id)
    requires newId == Adopted().ledger.supply
    ensures var s := Adopted();
      && Inv(s, Docker) && 3 in s.ledger.awaiting && OwnerOf(s.db, 2).Some?
      && Transacted(s.db, BeginTx(s.db, Docker, 2, Delete, None, newId), Fail, s.db, Err(Store))
      && Owned(s, 3) && s.native[2].running && Lingers(s.db, 3) && !Undone(s, 3)
  {
    var s := Adopted();
    AdoptedCovers(s);
    AdoptedFits(s);
    AdoptedRest(s);
    assert !Undone(s, 3) && s.native[2].running && 3 in s.ledger.awaiting;
    AdoptedBegins(s, newId);
    hide *;
    InvFrom(s, Docker);
  }

  lemma AdoptedBegins(s: State, newId: Id)
    requires s == Adopted() && newId == s.ledger.supply && OwnerOf(s.db, 2).Some?
    ensures Transacted(s.db, BeginTx(s.db, Docker, 2, Delete, None, newId), Fail, s.db, Err(Store))
  {
    hide OwnerOf, IntentOf;
    assert BeginTx(s.db, Docker, 2, Delete, None, newId).Err? || BeginTx(s.db, Docker, 2, Delete, None, newId).Ok?;
    AdoptedToken(s);
  }

  lemma AdoptedToken(s: State)
    requires s == Adopted() && OwnerOf(s.db, 2).Some?
    ensures OwnerOf(s.db, 2).value.token == 3 && IntentOf(s.db, 3).None?
  {
  }

  lemma AdoptedFits(s: State)
    requires s == Adopted()
    ensures Consistent(s.db, Docker) && Labelled(s.db, s.native, s.ledger.issued)
  {
  }

  lemma AdoptedCovers(s: State)
    requires s == Adopted()
    ensures HasRow(s.db, 3) && HasDeadline(s.db, 3) && !HasIntent(s.db, 3) && OwnerOf(s.db, 2).Some? && IntentOf(s.db, 3).None?
    ensures At(s, 3, Some(2)) && Owned(s, 3)
  {
    assert s.db.rows[1].token == 3 && s.db.rows[1].expiresAt.Some? && Owns(s.db.rows[1], 2);
    assert At(s, 3, Some(s.db.rows[1].nativeId));
  }

  lemma AdoptedRest(s: State)
    requires s == Adopted() && HasRow(s.db, 3) && HasDeadline(s.db, 3)
    ensures Known(s) && NoOrphan(s.db, s.native, s.ledger.issued) && Timed(s.db, s.native, s.ledger.issued)
    ensures Adoptable(s.db, s.ledger.awaiting, s.ledger.adopted, s.ledger.abandoned)
  {
    hide HasRow, HasDeadline, HasUndo;
  }

  /******* Cuts *******/

  /** A recovery of op that was cut between any two calls, again and again. */
  ghost predicate CutUp(cuts: seq<State>, op: Operation, rt: Runtime) {
    && 0 < |cuts| && Inv(cuts[0], rt) && Holds(cuts[0], op)
    && forall i | 0 < i < |cuts| :: During(cuts[i - 1], cuts[i], op, rt, true)
  }

  /** However often it is cut, the recovery that finishes ends where one uncut run from the start ends. */
  lemma {:induction false} CutIsHarmless(cuts: seq<State>, last: State, uncut: State, op: Operation, rt: Runtime)
    requires CutUp(cuts, op, rt) && After(cuts[|cuts| - 1], last, op, rt, true) && After(cuts[0], uncut, op, rt, true)
    ensures last == uncut && op.id !in last.db.ops
  {
    CutsLeadOn(cuts, op, rt);
  }

  lemma {:induction false} CutsLeadOn(cuts: seq<State>, op: Operation, rt: Runtime)
    requires CutUp(cuts, op, rt)
    ensures Settled(cuts[|cuts| - 1], op) == Settled(cuts[0], op)
  {
    hide Inv, Settled, OnlyAttempt, Kept, Holds;
    if |cuts| > 1 {
      var some := cuts[..|cuts| - 1];
      assert some[0] == cuts[0] && some[|some| - 1] == cuts[|cuts| - 2];
      CutsLeadOn(some, op, rt);
    }
  }

  /** Two intents of different attempts may be recovered in either order. */
  lemma SettleCommutes(s: State, a: Operation, b: Operation, rt: Runtime)
    requires Inv(s, rt) && Holds(s, a) && Holds(s, b) && a.token != b.token
    ensures Settled(Settled(s, a), b) == Settled(Settled(s, b), a)
  {
    hide Inv, SettledRows, SettledNative, RunningFor, PortsFor, Holds, OneContainer;
    OneEach(s, a, rt);
    OneEach(s, b, rt);
    SettleApart(s.native, a, b);
    SettleApart(s.native, b, a);
    RowsCommute(s.db.rows, s.native, a, b);
    NativeCommutes(s.native, a, b);
    assert s.db.ops - {a.id} - {b.id} == s.db.ops - {b.id} - {a.id};
  }

  ghost predicate OneContainer(native: Natives, token: Id) {
    forall n <- native, m <- native :: native[n].owner == token && native[m].owner == token ==> n == m
  }

  lemma OneEach(s: State, op: Operation, rt: Runtime)
    requires Inv(s, rt) && Holds(s, op)
    ensures OneContainer(s.native, op.token)
  {
  }

  lemma RowsCommute(rows: map<Id, Sandbox>, native: Natives, a: Operation, b: Operation)
    requires a.token != b.token
    requires RunningFor(SettledNative(native, a), b.token) == RunningFor(native, b.token)
    requires PortsFor(SettledNative(native, a), b.token) == PortsFor(native, b.token)
    requires RunningFor(SettledNative(native, b), a.token) == RunningFor(native, a.token)
    requires PortsFor(SettledNative(native, b), a.token) == PortsFor(native, a.token)
    ensures SettledRows(SettledRows(rows, native, a), SettledNative(native, a), b)
         == SettledRows(SettledRows(rows, native, b), SettledNative(native, b), a)
  {
    hide SettledRows, SettledNative, RunningFor, PortsFor;
    var ra, rb := SettledRows(rows, native, a), SettledRows(rows, native, b);
    var na, nb := SettledNative(native, a), SettledNative(native, b);
    forall k: Id
      ensures k in SettledRows(ra, na, b) <==> k in SettledRows(rb, nb, a)
      ensures k in SettledRows(ra, na, b) ==> SettledRows(ra, na, b)[k] == SettledRows(rb, nb, a)[k]
    {
      SettledAt(rows, native, a, k);
      SettledAt(rows, native, b, k);
      SettledAt(ra, na, b, k);
      SettledAt(rb, nb, a, k);
    }
    assert SettledRows(ra, na, b) == SettledRows(rb, nb, a);
  }

  /** What becomes of one row. */
  ghost function SettledRow(row: Sandbox, native: Natives, op: Operation): Option<Sandbox> {
    if row.token != op.token then Some(row)
    else match op.kind
      case Create => None
      case Delete => None
      case Stop => Some(row.(expiresAt := None))
      case _ => Some(row.(expiresAt := if RunningFor(native, op.token) then op.deadline else None, ports := PortsFor(native, op.token)))
  }

  lemma SettledAt(rows: map<Id, Sandbox>, native: Natives, op: Operation, k: Id)
    ensures k in SettledRows(rows, native, op) <==> k in rows && SettledRow(rows[k], native, op).Some?
    ensures k in SettledRows(rows, native, op) ==> Some(SettledRows(rows, native, op)[k]) == SettledRow(rows[k], native, op)
  {
  }

  lemma NativeCommutes(native: Natives, a: Operation, b: Operation)
    requires a.token != b.token
    ensures SettledNative(SettledNative(native, a), b) == SettledNative(SettledNative(native, b), a)
  {
    var na, nb := SettledNative(native, a), SettledNative(native, b);
    forall n: Id
      ensures n in SettledNative(na, b) <==> n in SettledNative(nb, a)
      ensures n in SettledNative(na, b) ==> SettledNative(na, b)[n] == SettledNative(nb, a)[n]
    {
      NativeAt(native, a, n);
      NativeAt(native, b, n);
      NativeAt(na, b, n);
      NativeAt(nb, a, n);
    }
    hide SettledNative;
    assert SettledNative(na, b) == SettledNative(nb, a);
  }

  lemma NativeAt(native: Natives, op: Operation, n: Id)
    ensures n in SettledNative(native, op) <==> n in native && !(Undoing(op.kind) && native[n].owner == op.token)
    ensures n in SettledNative(native, op) ==> 
      SettledNative(native, op)[n] ==
      (if op.kind.Stop? && native[n].owner == op.token then native[n].(running := false, restarting := false) else native[n])
  {
  }

  /** What b needs to know about the runtime is not changed by a. */
  lemma SettleApart(native: Natives, a: Operation, b: Operation)
    requires a.token != b.token
    requires OneContainer(native, b.token)
    ensures RunningFor(SettledNative(native, a), b.token) == RunningFor(native, b.token)
    ensures PortsFor(SettledNative(native, a), b.token) == PortsFor(native, b.token)
  {
    var native' := SettledNative(native, a);
    assert forall n <- native' :: n in native && native'[n].owner == native[n].owner && native'[n].ports == native[n].ports;
    if n :| n in native && native[n].owner == b.token && native[n].running {
      assert n in native' && native'[n] == native[n];
    }
    if n :| n in native && native[n].owner == b.token {
      assert n in native' && native'[n] == native[n];
    }
  }

  /******* The startup sweep *******/

  /** The startup sweep reads the rows before it recovers the intents, and stops what was overdue then. Its guard
      passes for row once the pending intent op of that sandbox is settled. */
  ghost predicate Sweeps(s: State, op: Operation, row: Sandbox, now: int) {
    && row.expiresAt.Some? && row.expiresAt.value <= now
    && OwnerOf(Settled(s, op).db, row.nativeId).Some? && Idle(Settled(s, op), row.nativeId)
  }

  /** The sweep then stops a running container before its durable deadline. */
  ghost predicate StopsEarly(s: State, op: Operation, row: Sandbox, now: int) {
    && Sweeps(s, op, row, now)
    && RunningFor(Settled(s, op).native, row.token)
    && var own := OwnerOf(Settled(s, op).db, row.nativeId).value;
    own.expiresAt.Some? && own.expiresAt.value > now
  }

  /** The sweep stops a sandbox too early exactly when a start or restart of it was pending, its container runs,
      and the new deadline is still ahead while the old one has passed. */
  lemma SweepStopsEarlyIff(s: State, op: Operation, row: Sandbox, now: int, rt: Runtime)
    requires Inv(s, rt) && Holds(s, op) && row.id in s.db.rows && s.db.rows[row.id] == row && row.token == op.token
    ensures StopsEarly(s, op, row, now) <==>
      && (op.kind.Start? || op.kind.Restart?)
      && RunningFor(s.native, op.token)
      && row.expiresAt.Some? && row.expiresAt.value <= now < op.deadline.value
  {
    var t := Settled(s, op);
    assert RowsOk(s.db.rows, rt) && OpsOk(s.db.ops, rt) && WellShaped(op);
    hide Inv;
    hide RowsOk, OpsOk;
    OwnerSettles(s, op, row, rt);
    hide OwnerOf, Settled;
    if op.kind.Stop? {
      StopSettles(s, op);
    }
    SettledIdle(s, op, row, rt);
    if op.kind.Start? || op.kind.Restart? {
      assert t.native == s.native by { StartSettles(s, op); }
    }
  }

  lemma StopSettles(s: State, op: Operation)
    requires op.kind.Stop?
    ensures !RunningFor(Settled(s, op).native, op.token)
  {
  }

  lemma StartSettles(s: State, op: Operation)
    requires op.kind.Start? || op.kind.Restart?
    ensures Settled(s, op).native == s.native
  {
  }

  lemma SettledIdle(s: State, op: Operation, row: Sandbox, rt: Runtime)
    requires OpsOk(s.db.ops, rt) && Holds(s, op)
    requires OwnerOf(Settled(s, op).db, row.nativeId).Some? ==> OwnerOf(Settled(s, op).db, row.nativeId).value.token == op.token
    ensures Idle(Settled(s, op), row.nativeId)
  {
  }

  lemma SettledKeeps(rows: map<Id, Sandbox>, native: Natives, op: Operation, k: Id)
    requires k in SettledRows(rows, native, op)
    ensures k in rows && var row := SettledRows(rows, native, op)[k];
      row.id == rows[k].id && row.nativeId == rows[k].nativeId && row.token == rows[k].token
    ensures rows[k].token == op.token ==> !Undoing(op.kind)
  {
  }

  /** The owner of the native identity after its intent is settled. */
  lemma OwnerSettles(s: State, op: Operation, row: Sandbox, rt: Runtime)
    requires RowsOk(s.db.rows, rt) && row.id in s.db.rows && s.db.rows[row.id] == row && row.token == op.token
    ensures OwnerOf(Settled(s, op).db, row.nativeId) ==
      (if Undoing(op.kind) then None
       else if op.kind.Stop? then Some(row.(expiresAt := None))
       else Some(row.(expiresAt := if RunningFor(s.native, op.token) then op.deadline else None, ports := PortsFor(s.native, op.token))))
  {
    hide RunningFor, PortsFor, SettledNative;
    var t := Settled(s, op).db;
    if !Undoing(op.kind) {
      assert row.id in t.rows && Owns(t.rows[row.id], row.nativeId);
    }
    if OwnerOf(t, row.nativeId).Some? {
      var k :| k in t.rows && t.rows[k] == OwnerOf(t, row.nativeId).value && Owns(t.rows[k], row.nativeId);
      SettledKeeps(s.db.rows, s.native, op, k);
      assert k == row.id;
    }
  }

  /** It happens: the process died between the restart of a sandbox whose deadline had passed and the end of that
      operation, and is started again. */
  function Restarted(): (State, Operation, Sandbox) {
    var row := Sandbox(1, 2, Docker, 3, Some(10), map[], Provenance("", "", "", "", "", ""));
    var op := Operation(4, Docker, 1, 2, NONE, 3, Restart, Some(900));
    (State(Tables(map[1 := row], map[4 := op]), map[2 := Container(5, 3, true, false, map[])], Ledger({3}, {}, {}, {}, 6)), op, row)
  }

  lemma SweepStopsEarlyOnce()
    ensures var (s, op, row) := Restarted();
      Inv(s, Docker) && Holds(s, op) && row.id in s.db.rows && s.db.rows[row.id] == row && StopsEarly(s, op, row, 20)
  {
    var (s, op, row) := Restarted();
    hide Inv, HasRow, HasDeadline, RunningFor, StopsEarly;
    RestartedCovers(s);
    RestartedHolds(s);
    SweepStopsEarlyIff(s, op, row, 20, Docker);
  }

  lemma RestartedHolds(s: State)
    requires s == Restarted().0
    ensures Inv(s, Docker)
  {
    RestartedCovers(s);
    RestartedFits(s);
    RestartedRest(s);
    hide *;
    InvFrom(s, Docker);
  }

  lemma RestartedRest(s: State)
    requires s == Restarted().0 && HasRow(s.db, 3) && HasDeadline(s.db, 3)
    ensures Known(s) && NoOrphan(s.db, s.native, s.ledger.issued) && Timed(s.db, s.native, s.ledger.issued)
    ensures Adoptable(s.db, s.ledger.awaiting, s.ledger.adopted, s.ledger.abandoned)
  {
    hide HasRow, HasDeadline, HasUndo;
  }

  lemma RestartedFits(s: State)
    requires s == Restarted().0
    ensures Consistent(s.db, Docker) && Labelled(s.db, s.native, s.ledger.issued)
  {
  }

  lemma RestartedCovers(s: State)
    requires s == Restarted().0
    ensures HasRow(s.db, 3) && HasDeadline(s.db, 3) && RunningFor(s.native, 3)
  {
    assert s.db.rows[1] == Restarted().2;
    assert s.native[2].running;
  }
}
