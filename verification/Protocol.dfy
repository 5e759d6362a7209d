/** Every transaction and every native effect of the lifecycle protocol keeps the invariant. */
module Protocol {
  import opened Prelude
  import opened Records
  import opened Repositories
  import opened Intents

  /** A new row or intent starts an attempt. */
  lemma BeginCreateKeeps(s: State, op: Operation, rt: Runtime)
    requires Inv(s, rt) && BeginCreateTx(s.db, op).Ok?
    requires op.kind.Create? && WellShaped(op) && op.runtime == rt && op.id < s.ledger.supply && op.publicId < s.ledger.supply
    requires op.id == op.token && Unused(s, op.token) && Free(s, op.nativeName) && (op.nativeId == NONE || (Free(s, op.nativeId) && op.publicId != NONE))
    ensures BeginCreateTx(s.db, op).value.after == WithOp(s, op).db
    ensures Inv(WithOp(s, op), rt)
  {
    forall k | k in s.db.ops ensures k != op.id ==> !Clash(op, s.db.ops[k]) {
      assert s.db.ops[k].publicId != op.publicId || op.publicId == NONE;
    }
    PutOpKeeps(s, op, rt);
  }

  /** The intent that a mutation begins, or re-enters, is the only one of the owner, and is bound to it. */
  lemma BeginKeeps(s: State, rt: Runtime, native: Id, kind: Kind, deadline: Option<int>, newId: Id)
    requires Inv(s, rt) && BeginTx(s.db, rt, native, kind, deadline, newId).Ok?
    requires newId < s.ledger.supply && !kind.Create? && ((kind.Start? || kind.Restart?) ==> deadline.Some?) && (kind.Stop? ==> deadline.None?)
    ensures var c := BeginTx(s.db, rt, native, kind, deadline, newId).value;
      && Inv(s.(db := c.after), rt)
      && c.after == WithOp(s, c.value).db
      && c.value.kind == kind && BoundToOwner(s, c.value, native)
  {
    var c := BeginTx(s.db, rt, native, kind, deadline, newId).value;
    var row := OwnerOf(s.db, native).value;
    OwnerFacts(s, rt, native);
    match IntentOf(s.db, row.token)
    case None =>
      assert s.(db := c.after) == WithOp(s, c.value);
      BeginNewKeeps(s, rt, row, c.value);
    case Some(p) =>
      IntentFacts(s, rt, row, p);
      if p.kind.Create? {
        assert s.(db := c.after) == WithOp(s, c.value);
        ConvertKeeps(s, rt, p, row, native);
      } else {
        assert s.db.ops[p.id := p] == s.db.ops;
        assert s.(db := c.after) == WithOp(s, c.value) == s;
      }
  }

  /** op names the row that owns native, by every identity. */
  ghost predicate BoundToOwner(s: State, op: Operation, native: Id) {
    && OwnerOf(s.db, native).Some?
    && var row := OwnerOf(s.db, native).value;
    && row.id in s.db.rows && s.db.rows[row.id] == row && row.nativeId == native
    && op.token == row.token && op.nativeId == native && op.publicId == row.id
  }

  lemma OwnerFacts(s: State, rt: Runtime, native: Id)
    requires RowsOk(s.db.rows, rt) && OwnerOf(s.db, native).Some?
    ensures var row := OwnerOf(s.db, native).value;
      row.id in s.db.rows && s.db.rows[row.id] == row && row.nativeId == native && native != NONE
  {
  }

  lemma IntentFacts(s: State, rt: Runtime, row: Sandbox, p: Operation)
    requires Consistent(s.db, rt) && row.id in s.db.rows && s.db.rows[row.id] == row
    requires IntentOf(s.db, row.token) == Some(p)
    ensures p.id in s.db.ops && s.db.ops[p.id] == p && Bound(p, row)
  {
  }

  /** An owner without an intent can take a new one. */
  lemma BeginNewKeeps(s: State, rt: Runtime, row: Sandbox, op: Operation)
    requires Inv(s, rt) && row.id in s.db.rows && s.db.rows[row.id] == row
    requires forall o <- s.db.ops :: s.db.ops[o].token != row.token
    requires Bound(op, row) && !op.kind.Create? && WellShaped(op) && op.runtime == rt && op.id < s.ledger.supply
    requires op.nativeName == NONE && op.id !in s.db.ops && (op.kind.Stop? ==> op.deadline.None?)
    ensures Inv(WithOp(s, op), rt)
  {
    NewIntentFits(s, rt, row, op);
    PutOpKeeps(s, op, rt);
  }

  lemma NewIntentFits(s: State, rt: Runtime, row: Sandbox, op: Operation)
    requires Inv(s, rt) && row.id in s.db.rows && s.db.rows[row.id] == row
    requires forall o <- s.db.ops :: s.db.ops[o].token != row.token
    requires Bound(op, row) && !op.kind.Create? && WellShaped(op) && op.runtime == rt && op.id < s.ledger.supply
    requires op.nativeName == NONE && op.id !in s.db.ops && (op.kind.Stop? ==> op.deadline.None?)
    ensures Fits(s, op, rt)
  {
    forall o | o in s.db.ops ensures !Clash(op, s.db.ops[o]) {
      if Clash(op, s.db.ops[o]) {
        assert Touches(s.db.ops[o], row);
      }
    }
    forall n | n in s.native ensures Agree(op, n, s.native[n]) {
      assert s.db.rows[row.id].nativeId == n <==> s.native[n].owner == row.token;
    }
  }

  /** A pending creation may be turned into a deletion in place. */
  lemma ConvertKeeps(s: State, rt: Runtime, p: Operation, row: Sandbox, native: Id)
    requires Inv(s, rt) && p.id in s.db.ops && s.db.ops[p.id] == p && p.kind.Create?
    requires row.id in s.db.rows && s.db.rows[row.id] == row && row.token == p.token && row.nativeId == native
    ensures Inv(WithOp(s, p.(kind := Delete, nativeId := native, publicId := row.id)), rt)
  {
    ConvertFits(s, rt, p, row, native);
    PutOpKeeps(s, p.(kind := Delete, nativeId := native, publicId := row.id), rt);
  }

  /** An intent that does not clash with p does not clash with what p says once it names its own row. */
  lemma NamesNoOther(p: Operation, other: Operation, row: Sandbox)
    requires !Clash(p, other) && p.token == row.token && (Touches(other, row) ==> Bound(other, row))
    ensures !Clash(p.(kind := Delete, nativeId := row.nativeId, publicId := row.id), other)
  {
  }

  lemma ConvertFits(s: State, rt: Runtime, p: Operation, row: Sandbox, native: Id)
    requires Inv(s, rt) && p.id in s.db.ops && s.db.ops[p.id] == p && p.kind.Create?
    requires row.id in s.db.rows && s.db.rows[row.id] == row && row.token == p.token && row.nativeId == native
    ensures Fits(s, p.(kind := Delete, nativeId := native, publicId := row.id), rt)
    ensures row.expiresAt.Some?
  {
    var op := p.(kind := Delete, nativeId := native, publicId := row.id);
    assert Touches(p, row);
    forall o | o in s.db.ops && o != op.id ensures !Clash(op, s.db.ops[o]) {
      assert !Clash(p, s.db.ops[o]);
      NamesNoOther(p, s.db.ops[o], row);
    }
    forall n | n in s.native ensures Agree(op, n, s.native[n]) {
      assert s.db.rows[row.id].nativeId == n <==> s.native[n].owner == row.token;
    }
  }

  /** The native identity of a creation is recorded. */
  lemma BindKeeps(s: State, op: Operation, n: Id, rt: Runtime)
    requires Inv(s, rt) && op.id in s.db.ops && op == s.db.ops[op.id] && op.kind.Create? && op.nativeId == NONE
    requires NONE < n < s.ledger.supply && n !in s.db.rows
    requires forall r <- s.db.rows :: s.db.rows[r].nativeId != n && s.db.rows[r].token != op.token
    requires forall o <- s.db.ops :: s.db.ops[o].nativeId != n && s.db.ops[o].publicId != n
    requires forall m <- s.native :: s.native[m].owner == op.token <==> m == n
    ensures BindTx(s.db, op, n).value.after == WithOp(s, BoundTo(op, n)).db
    ensures Inv(WithOp(s, BoundTo(op, n)), rt)
  {
    var b := BoundTo(op, n);
    forall o | o in s.db.ops && o != op.id ensures !Clash(b, s.db.ops[o]) {
      assert !Clash(op, s.db.ops[o]);
    }
    PutOpKeeps(s, b, rt);
  }

  /** The observed state is recorded, and the intent is retired with it. */
  lemma CompleteKeeps(s: State, op: Operation, ports: Option<Ports>, deadline: Option<int>, rt: Runtime)
    requires Inv(s, rt) && op.id in s.db.ops && op == s.db.ops[op.id] && !Undoing(op.kind)
    requires deadline.None? ==> forall n <- s.native :: s.native[n].owner == op.token ==> !s.native[n].running
    ensures CompleteTx(s.db, op, ports, deadline).Ok?
    ensures Inv(s.(db := CompleteTx(s.db, op, ports, deadline).value.after), rt)
  {
    ObserveKeeps(s, op, ports, deadline, rt);
    var s1 := WithRow(s, Observed(s.db.rows[op.publicId], op.runtime, ports, deadline));
    RetireKeeps(s1, op.id, op.publicId, rt);
    assert WithoutOp(s1, op.id).db == CompleteTx(s.db, op, ports, deadline).value.after;
  }

  lemma ObserveKeeps(s: State, op: Operation, ports: Option<Ports>, deadline: Option<int>, rt: Runtime)
    requires Inv(s, rt) && op.id in s.db.ops && op == s.db.ops[op.id] && !Undoing(op.kind)
    requires deadline.None? ==> forall n <- s.native :: s.native[n].owner == op.token ==> !s.native[n].running
    ensures Valid(s.db, op) && op.publicId in s.db.rows && Owns(s.db.rows[op.publicId], op.nativeId)
    ensures s.db.rows[op.publicId].id == op.publicId && s.db.rows[op.publicId].token == op.token
    ensures Inv(WithRow(s, Observed(s.db.rows[op.publicId], op.runtime, ports, deadline)), rt)
  {
    var row := s.db.rows[op.publicId];
    assert Touches(op, row);
    forall o | o in s.db.ops && s.db.ops[o].token == op.token ensures o == op.id {
      assert Clash(s.db.ops[o], op);
    }
    UpdateRowKeeps(s, Observed(row, op.runtime, ports, deadline), rt);
  }

  /** An intent that is neither a creation nor a deletion is retired; its row stays. */
  lemma RetireKeeps(s: State, id: Id, k: Id, rt: Runtime)
    requires Inv(s, rt) && id in s.db.ops && !Undoing(s.db.ops[id].kind)
    requires k in s.db.rows && s.db.rows[k].token == s.db.ops[id].token
    requires s.db.rows[k].expiresAt.None? ==> forall n <- s.native :: s.native[n].owner == s.db.rows[k].token ==> !s.native[n].running
    ensures Inv(WithoutOp(s, id), rt)
  {
    RemoveOpKeeps(s, id, false, rt);
  }

  /** Once nothing native carries the token, row and intent go together. */
  lemma DeleteKeeps(s: State, op: Operation, rt: Runtime)
    requires Inv(s, rt) && DeleteTx(s.db, op).Ok?
    requires op.id in s.db.ops ==> s.db.ops[op.id].token == op.token
    requires forall o <- s.db.ops :: s.db.ops[o].token == op.token ==> o == op.id
    requires forall n <- s.native :: s.native[n].owner != op.token
    requires forall r <- s.db.rows :: s.db.rows[r].token == op.token ==> r == op.publicId
    ensures Inv(s.(db := DeleteTx(s.db, op).value.after), rt)
    ensures !HasRow(DeleteTx(s.db, op).value.after, op.token) && !HasIntent(DeleteTx(s.db, op).value.after, op.token)
  {
    var t := DeleteTx(s.db, op).value.after;
    DeletesBoth(s.db, op, rt) by { InvParts(s, rt); }
    hide Inv, DeleteTx, HasRow, HasIntent;
    ForgetKeeps(s, op.id, op, rt);
    assert s.(db := t) == s.(db := Tables(s.db.rows - {op.publicId}, s.db.ops - {op.id}));
    Forgotten(s.db, t, op);
  }

  lemma DeletesBoth(t: Tables, op: Operation, rt: Runtime)
    requires RowsOk(t.rows, rt) && DeleteTx(t, op).Ok?
    ensures DeleteTx(t, op).value.after == Tables(t.rows - {op.publicId}, t.ops - {op.id})
    ensures op.publicId in t.rows ==> t.rows[op.publicId].token == op.token
  {
    assert op.publicId !in t.rows ==> t.rows - {op.publicId} == t.rows;
  }

  lemma Forgotten(t: Tables, t': Tables, op: Operation)
    requires t' == Tables(t.rows - {op.publicId}, t.ops - {op.id})
    requires forall o <- t.ops :: t.ops[o].token == op.token ==> o == op.id
    requires forall r <- t.rows :: t.rows[r].token == op.token ==> r == op.publicId
    ensures !HasRow(t', op.token) && !HasIntent(t', op.token)
  {
  }

  lemma SetDeadlineKeeps(s: State, native: Id, deadline: Option<int>, rt: Runtime)
    requires Inv(s, rt) && deadline.Some? && SetDeadlineTx(s.db, native, rt, deadline).Ok?
    ensures Inv(s.(db := SetDeadlineTx(s.db, native, rt, deadline).value.after), rt)
  {
    var row := OwnerOf(s.db, native).value;
    var k :| k in s.db.rows && s.db.rows[k] == row && Owns(s.db.rows[k], native);
    UpdateRowKeeps(s, row.(expiresAt := deadline, runtime := rt), rt);
  }

  /** After an adoption the attempt is final, unless an intent of it is still pending. */
  ghost function AdoptionLedger(t: Tables, after: Tables, row: Sandbox, adopt: bool, g: Ledger): Ledger
    requires row.id in t.rows
  {
    var token := t.rows[row.id].token;
    if adopt && !HasIntent(after, token) then g.(adopted := g.adopted + {token}) else g
  }

  lemma ProvenanceKeeps(s: State, row: Sandbox, adopt: bool, rt: Runtime)
    requires Inv(s, rt) && ProvenanceTx(s.db, row, adopt).Ok?
    ensures row.id in s.db.rows
    ensures var after := ProvenanceTx(s.db, row, adopt).value.after;
      Inv(State(after, s.native, AdoptionLedger(s.db, after, row, adopt, s.ledger)), rt)
  {
    var stored := s.db.rows[row.id].(provenance := row.provenance);
    assert stored.id == row.id by { InvParts(s, rt); }
    hide Inv, HasIntent;
    var s1 := WithRow(s, stored);
    var after := ProvenanceTx(s.db, row, adopt).value.after;
    UpdateRowKeeps(s, stored, rt);
    if adopt {
      AdoptKeeps(s1, row, rt);
      assert AfterAdoption(s1, row) == State(after, s.native, AdoptionLedger(s.db, after, row, adopt, s.ledger));
    }
  }

  ghost function AfterAdoption(s: State, row: Sandbox): State
    requires row.id in s.db.rows
  {
    var after := s.db.(ops := map k | k in s.db.ops && !Adopted(s.db.ops[k], row) :: s.db.ops[k]);
    State(after, s.native, AdoptionLedger(s.db, after, row, true, s.ledger))
  }

  /** Adoption retires the bound creation intent of the row, if there is one. */
  lemma AdoptKeeps(s: State, row: Sandbox, rt: Runtime)
    requires Inv(s, rt) && row.id in s.db.rows && s.db.rows[row.id].nativeId == row.nativeId
    requires forall o <- s.db.ops :: s.db.ops[o].publicId == row.id ==> s.db.ops[o].kind.Create?
    ensures Inv(AfterAdoption(s, row), rt)
  {
    var token := s.db.rows[row.id].token;
    if o :| o in s.db.ops && Adopted(s.db.ops[o], row) {
      RetireCreation(s, row, o, rt);
      AdoptionRemoves(s, row, o);
    } else {
      AdoptionLeaves(s, row);
      if !HasIntent(s.db, token) {
        FinalKeeps(s, token, rt);
      }
    }
  }

  lemma AdoptionRemoves(s: State, row: Sandbox, o: Id)
    requires row.id in s.db.rows && o in s.db.ops && Adopted(s.db.ops[o], row)
    requires s.db.ops[o].token == s.db.rows[row.id].token
    requires forall k <- s.db.ops :: k != o ==> !Adopted(s.db.ops[k], row) && s.db.ops[k].token != s.db.ops[o].token
    ensures AfterAdoption(s, row) == Final(WithoutOp(s, o), s.db.ops[o].token)
  {
    assert AfterAdoption(s, row).db.ops == s.db.ops - {o};
  }

  lemma AdoptionLeaves(s: State, row: Sandbox)
    requires row.id in s.db.rows && forall k <- s.db.ops :: !Adopted(s.db.ops[k], row)
    ensures AfterAdoption(s, row) == if HasIntent(s.db, s.db.rows[row.id].token) then s else Final(s, s.db.rows[row.id].token)
  {
    assert AfterAdoption(s, row).db.ops == s.db.ops;
  }

  lemma RetireCreation(s: State, row: Sandbox, o: Id, rt: Runtime)
    requires Inv(s, rt) && row.id in s.db.rows && s.db.rows[row.id].nativeId == row.nativeId
    requires o in s.db.ops && Adopted(s.db.ops[o], row)
    ensures s.db.ops[o].token == s.db.rows[row.id].token
    ensures forall k <- s.db.ops :: k != o ==> !Adopted(s.db.ops[k], row) && s.db.ops[k].token != s.db.ops[o].token
    ensures Inv(Final(WithoutOp(s, o), s.db.ops[o].token), rt)
  {
    OnlyAdopted(s, row, o, rt);
    RemoveOpKeeps(s, o, true, rt);
  }

  lemma OnlyAdopted(s: State, row: Sandbox, o: Id, rt: Runtime)
    requires Consistent(s.db, rt) && row.id in s.db.rows && s.db.rows[row.id].nativeId == row.nativeId
    requires Adoptable(s.db, s.ledger.awaiting, s.ledger.adopted, s.ledger.abandoned)
    requires o in s.db.ops && Adopted(s.db.ops[o], row)
    ensures s.db.ops[o].token == s.db.rows[row.id].token && Quiescent(s, s.db.ops[o].token)
    ensures forall k <- s.db.ops :: k != o ==> !Adopted(s.db.ops[k], row) && s.db.ops[k].token != s.db.ops[o].token
  {
    assert Touches(s.db.ops[o], s.db.rows[row.id]);
    forall k | k in s.db.ops && k != o ensures !Adopted(s.db.ops[k], row) && s.db.ops[k].token != s.db.ops[o].token {
      assert !Clash(s.db.ops[k], s.db.ops[o]);
    }
  }
}
