/** Where an intent leads: the state that an undisturbed recovery of it ends in, said by token and
    without the steps of the code. Every cut of a recovery leads to the same state. */
module Settlement {
  import opened Prelude
  import opened Records
  import opened Repositories
  import opened Intents

  ghost predicate RunningFor(native: Natives, token: Id) {
    exists n :: n in native && native[n].owner == token && native[n].running
  }

  /** The ports of the container of the attempt; none if it is missing. */
  ghost function PortsFor(native: Natives, token: Id): Ports {
    if n :| n in native && native[n].owner == token then native[n].ports else map[]
  }

  ghost function SettledRows(rows: map<Id, Sandbox>, native: Natives, op: Operation): map<Id, Sandbox> {
    match op.kind
    case Create => map k | k in rows && rows[k].token != op.token :: rows[k]
    case Delete => map k | k in rows && rows[k].token != op.token :: rows[k]
    case Stop => map k | k in rows :: if rows[k].token == op.token then rows[k].(expiresAt := None) else rows[k]
    case _ =>
      var deadline := if RunningFor(native, op.token) then op.deadline else None;
      map k | k in rows ::
        if rows[k].token == op.token then rows[k].(expiresAt := deadline, ports := PortsFor(native, op.token)) else rows[k]
  }

  ghost function SettledNative(native: Natives, op: Operation): Natives {
    match op.kind
    case Create => map n | n in native && native[n].owner != op.token :: native[n]
    case Delete => map n | n in native && native[n].owner != op.token :: native[n]
    case Stop => map n | n in native :: if native[n].owner == op.token then native[n].(running := false, restarting := false) else native[n]
    case _ => native
  }

  ghost function Settled(s: State, op: Operation): State {
    State(Tables(SettledRows(s.db.rows, s.native, op), s.db.ops - {op.id}), SettledNative(s.native, op), s.ledger)
  }

  /** The container of an undone attempt is removed: the end is the same. */
  lemma RemoveLeads(s: State, op: Operation, n: Id)
    requires Undoing(op.kind) && n in s.native && s.native[n].owner == op.token
    ensures Settled(s.(native := s.native - {n}), op) == Settled(s, op)
  {
  }

  lemma StopLeads(s: State, op: Operation, n: Id)
    requires op.kind.Stop? && n in s.native && s.native[n].owner == op.token
    ensures Settled(s.(native := s.native[n := s.native[n].(running := false, restarting := false)]), op) == Settled(s, op)
  {
  }

  /** Row and intent of an undone attempt are deleted last. */
  lemma DeleteArrives(s: State, op: Operation, op': Operation, rt: Runtime)
    requires Consistent(s.db, rt) && Undoing(op.kind) && DeleteTx(s.db, op').Ok?
    requires op'.id == op.id && op'.token == op.token
    requires forall n <- s.native :: s.native[n].owner != op.token
    requires forall r <- s.db.rows :: s.db.rows[r].token == op.token ==> r == op'.publicId
    ensures s.(db := DeleteTx(s.db, op').value.after) == Settled(s, op)
  {
    var after := DeleteTx(s.db, op').value.after;
    assert after.rows == SettledRows(s.db.rows, s.native, op);
    assert s.native == SettledNative(s.native, op);
  }

  /** The stop of an intent is recorded after the container was seen not to run. */
  lemma StopArrives(s: State, op: Operation, rt: Runtime)
    requires Consistent(s.db, rt) && op.kind.Stop? && op.id in s.db.ops && s.db.ops[op.id] == op
    requires forall n <- s.native :: s.native[n].owner == op.token ==> !s.native[n].running && !s.native[n].restarting
    requires CompleteTx(s.db, op, None, None).Ok?
    ensures s.(db := CompleteTx(s.db, op, None, None).value.after) == Settled(s, op)
  {
    var after := CompleteTx(s.db, op, None, None).value.after;
    assert Bound(op, s.db.rows[op.publicId]);
    assert after.rows == SettledRows(s.db.rows, s.native, op);
    assert s.native == SettledNative(s.native, op);
  }

  /** A start or restart is only observed, never repeated. */
  lemma StartArrives(s: State, op: Operation, rt: Runtime)
    requires Consistent(s.db, rt) && (op.kind.Start? || op.kind.Restart?) && op.id in s.db.ops && s.db.ops[op.id] == op
    requires var deadline := if RunningFor(s.native, op.token) then op.deadline else None;
      CompleteTx(s.db, op, Some(PortsFor(s.native, op.token)), deadline).Ok?
    ensures var deadline := if RunningFor(s.native, op.token) then op.deadline else None;
      s.(db := CompleteTx(s.db, op, Some(PortsFor(s.native, op.token)), deadline).value.after) == Settled(s, op)
  {
    var deadline := if RunningFor(s.native, op.token) then op.deadline else None;
    var after := CompleteTx(s.db, op, Some(PortsFor(s.native, op.token)), deadline).value.after;
    assert Bound(op, s.db.rows[op.publicId]);
    assert after.rows == SettledRows(s.db.rows, s.native, op);
  }
}
