/** The steps of one creation, and of its rollback, up to the point where the intent is final. */
module Creations {
  import opened Prelude
  import opened Records
  import opened Repositories
  import opened Intents
  import opened Protocol
  import opened Attempts

  /** A step of the attempt with this token since s0. */
  ghost predicate Trying(s0: State, s: State, token: Id, rt: Runtime) {
    Inv(s, rt) && OnlyAttempt(s0, s, token) && Lasting(s0.ledger.supply, s0.db, s.db) && s0.ledger.supply <= token && token in s.ledger.issued
  }

  ghost predicate NoRow(t: Tables, token: Id) {
    forall r <- t.rows :: t.rows[r].token != token
  }

  /** The only intent of the attempt, if it is still there, is number id. */
  ghost predicate OnlyOp(t: Tables, token: Id, id: Id) {
    && (forall o <- t.ops :: t.ops[o].token == token ==> o == id)
    && (id in t.ops ==> t.ops[id].token == token)
  }

  /** One more step of the attempt. */
  lemma TryStep(s0: State, s: State, s': State, token: Id, rt: Runtime)
    requires Trying(s0, s, token, rt) && Inv(s', rt) && OnlyAttempt(s, s', token)
    requires Lasting(s0.ledger.supply, s.db, s'.db)
    ensures Trying(s0, s', token, rt)
  {
    OnlyAttemptTrans(s0, s, s', token);
    LastingTrans(s0.ledger.supply, s0.db, s.db, s'.db);
    assert token in s'.ledger.issued;
  }

  /** The environment acted before the token was generated. */
  lemma TrySooner(s0: State, s1: State, s: State, token: Id, rt: Runtime)
    requires Inv(s0, rt) && EnvStep(s0, s1) && Trying(s1, s, token, rt)
    ensures Trying(s0, s, token, rt)
  {
    TryMeans(s1, s, token, rt);
    EnvOnly(s0, s1, token, rt);
    EnvOnward(s0, s1);
    EnvSame(s0, s1);
    hide Inv, OnlyAttempt, EnvStep, Onward, Spares, NewOps;
    LastingSooner(s0, s1, s);
    OnlyAttemptTrans(s0, s1, s, token);
  }

  lemma LastingSooner(s0: State, s1: State, s: State)
    requires s1.db == s0.db && s0.ledger.supply <= s1.ledger.supply && Lasting(s1.ledger.supply, s1.db, s.db)
    ensures Lasting(s0.ledger.supply, s0.db, s.db)
  {
  }

  lemma TryPasses(s0: State, s: State, s': State, token: Id, rt: Runtime, n: Option<Id>)
    requires Trying(s0, s, token, rt) && EnvStep(s, s')
    ensures Trying(s0, s', token, rt) && s'.db == s.db
    ensures At(s, token, n) ==> At(s', token, n)
    ensures Absent(s.native, token) ==> Absent(s'.native, token)
  {
    TryMeans(s0, s, token, rt);
    EnvKeeps(s, s', rt);
    PassStays(s, s', token, n) by { InvParts(s, rt); }
    LastingSame(s0.ledger.supply, s.db, s'.db);
    hide Inv, OnlyAttempt, Lasting, At, Absent;
    TryStep(s0, s, s', token, rt);
  }

  lemma TryMeans(s0: State, s: State, token: Id, rt: Runtime)
    requires Trying(s0, s, token, rt)
    ensures Inv(s, rt) && OnlyAttempt(s0, s, token) && Lasting(s0.ledger.supply, s0.db, s.db)
    ensures token in s.ledger.issued && s0.ledger.supply <= token && s0.ledger.supply <= s.ledger.supply
  {
  }

  lemma NewIsNot0(s: State, rt: Runtime)
    requires Inv(s, rt)
    ensures s.ledger.supply != NONE
  {
  }

  /** A token is generated: nothing in the world knows it. */
  lemma TokenIsUnused(s: State, awaitAdoption: bool, rt: Runtime)
    requires Inv(s, rt)
    ensures var s' := Issued(s, s.ledger.supply, awaitAdoption);
      Unused(s', s.ledger.supply) && Trying(s, s', s.ledger.supply, rt) && (s.ledger.supply in s'.ledger.awaiting <==> awaitAdoption)
      && s.ledger.supply !in s'.ledger.abandoned
  {
    hide Inv;
    IssueKeeps(s, rt, awaitAdoption);
    InvParts(s, rt);
    hide Consistent, Labelled, NoOrphan, Timed, Adoptable;
    var s' := Issued(s, s.ledger.supply, awaitAdoption);
    NewTokenIsUnused(s, s', s.ledger.supply);
    hide Known;
    LastingSame(s.ledger.supply, s.db, s'.db);
  }

  lemma NewTokenIsUnused(s: State, s': State, token: Id)
    requires Known(s) && token == s.ledger.supply && s'.db == s.db && s'.native == s.native
    requires exists await :: s' == Issued(s, token, await)
    ensures Unused(s', token) && OnlyAttempt(s, s', token) && token !in s'.ledger.abandoned && token !in s.ledger.awaiting
  {
  }

  lemma UnusedStays(s: State, s': State, token: Id)
    requires Known(s) && Unused(s, token) && EnvStep(s, s')
    ensures Unused(s', token)
  {
  }

  lemma FreeStays(s: State, s': State, n: Id)
    requires Known(s) && Free(s, n) && EnvStep(s, s')
    ensures Free(s', n)
  {
  }

  /** The identity that was handed out last is free. */
  lemma NewIsFree(s: State, s': State, rt: Runtime)
    requires Inv(s, rt) && s' == s.(ledger := s.ledger.(supply := s.ledger.supply + 1))
    ensures Free(s', s.ledger.supply)
  {
  }

  /** The creation intent is recorded before anything native happens. */
  lemma Recording(s0: State, s: State, s': State, op: Operation, rt: Runtime, fault: Fault, r: Result<()>)
    requires Trying(s0, s, op.token, rt) && Unused(s, op.token) && Free(s, op.nativeName)
    requires op.kind.Create? && WellShaped(op) && op.runtime == rt && op.id < s.ledger.supply && op.publicId < s.ledger.supply
    requires op.nativeId == NONE && op.id !in s.db.ops && op.id == op.token
    requires s' == s.(db := s'.db) && Transacted(s.db, BeginCreateTx(s.db, op), fault, s'.db, r)
    ensures Trying(s0, s', op.token, rt) && Absent(s'.native, op.token) && NoRow(s'.db, op.token)
    ensures r.Ok? ==> Holds(s', op)
    ensures OnlyOp(s'.db, op.token, op.id)
    ensures op.id in s'.db.ops ==> s'.db.ops[op.id] == op
  {
    TryMeans(s0, s, op.token, rt);
    hide Trying, OnlyAttempt, Lasting, Inv, Absent, NoRow, Holds, OnlyOp;
    if BeginCreateTx(s.db, op).Ok? {
      RecordKeeps(s, op, rt);
      LastingSame(s0.ledger.supply, s.db, WithOp(s, op).db);
      TryStep(s0, s, WithOp(s, op), op.token, rt);
    }
    hide Free;
    RecordFacts(s, op);
    hide Unused, BeginCreateTx;
    assert s' == s || s' == WithOp(s, op);
  }

  lemma RecordFacts(s: State, op: Operation)
    requires Unused(s, op.token) && op.id !in s.db.ops
    ensures Absent(s.native, op.token) && NoRow(s.db, op.token) && NoRow(WithOp(s, op).db, op.token)
    ensures Holds(WithOp(s, op), op) && OnlyOp(s.db, op.token, op.id) && OnlyOp(WithOp(s, op).db, op.token, op.id)
  {
  }

  lemma RecordKeeps(s: State, op: Operation, rt: Runtime)
    requires Inv(s, rt) && BeginCreateTx(s.db, op).Ok? && Unused(s, op.token) && Free(s, op.nativeName)
    requires op.kind.Create? && WellShaped(op) && op.runtime == rt && op.id < s.ledger.supply && op.publicId < s.ledger.supply
    requires op.nativeId == NONE && op.id !in s.db.ops && op.id == op.token
    ensures BeginCreateTx(s.db, op).value.after == WithOp(s, op).db
    ensures Inv(WithOp(s, op), rt) && OnlyAttempt(s, WithOp(s, op), op.token)
  {
    hide Inv, OnlyAttempt;
    BeginCreateKeeps(s, op, rt);
    RecordStays(s, op, rt);
  }

  lemma RecordStays(s: State, op: Operation, rt: Runtime)
    requires Inv(s, rt) && op.id !in s.db.ops
    ensures OnlyAttempt(s, WithOp(s, op), op.token)
  {
    hide Inv;
    InvParts(s, rt);
    BeginStays(s, op, rt);
  }

  /** The container is created under the exact name and label of its intent; its identity is new. */
  lemma NativeCreating(s0: State, s: State, s': State, op: Operation, rt: Runtime, c: Container)
    requires Trying(s0, s, op.token, rt) && Holds(s, op) && op.kind.Create? && op.nativeId == NONE
    requires Absent(s.native, op.token) && NoRow(s.db, op.token)
    requires c.owner == op.token && c.name == op.nativeName && !c.running && !c.restarting
    requires var n := s.ledger.supply;
      s' == State(s.db, s'.native, s.ledger.(supply := n + 1)) && (s'.native == s.native || s'.native == s.native[n := c])
    ensures Trying(s0, s', op.token, rt) && At(s', op.token, Some(s.ledger.supply))
    ensures Unclaimed(s'.db, s.ledger.supply)
  {
    TryMeans(s0, s, op.token, rt);
    hide Trying, Lasting;
    CreateKeeps(s, s', op, rt, c);
    CreateStays(s, s', op.token, s.ledger.supply) by { InvParts(s, rt); }
    hide Inv, OnlyAttempt;
    LastingSame(s0.ledger.supply, s.db, s'.db);
    TryStep(s0, s, s', op.token, rt);
  }

  lemma CreateKeeps(s: State, s': State, op: Operation, rt: Runtime, c: Container)
    requires Inv(s, rt) && Holds(s, op) && op.kind.Create? && op.nativeId == NONE
    requires Absent(s.native, op.token) && NoRow(s.db, op.token)
    requires c.owner == op.token && c.name == op.nativeName && !c.running && !c.restarting
    requires var n := s.ledger.supply;
      s' == State(s.db, s'.native, s.ledger.(supply := n + 1)) && (s'.native == s.native || s'.native == s.native[n := c])
    ensures Inv(s', rt) && Unclaimed(s'.db, s.ledger.supply)
  {
    var n := s.ledger.supply;
    var s1 := s.(ledger := s.ledger.(supply := n + 1));
    assert EnvStep(s, s1) by { InvParts(s, rt); }
    EnvKeeps(s, s1, rt);
    NewIsFree(s, s1, rt);
    hide Inv;
    if s'.native == s.native[n := c] {
      NativeCreateKeeps(s1, op.id, n, c, rt);
    } else {
      assert s' == s1;
    }
  }

  lemma CreateStays(s: State, s': State, token: Id, n: Id)
    requires Known(s) && Absent(s.native, token) && n == s.ledger.supply
    requires s' == State(s.db, s'.native, s.ledger.(supply := n + 1))
    requires s'.native == s.native || (n in s'.native && s'.native == s.native[n := s'.native[n]] && s'.native[n].owner == token)
    ensures OnlyAttempt(s, s', token) && At(s', token, Some(n))
  {
  }

  /** No row or intent uses n as native or public identity. */
  ghost predicate Unclaimed(t: Tables, n: Id) {
    && n !in t.rows && (forall r <- t.rows :: t.rows[r].nativeId != n)
    && (forall o <- t.ops :: t.ops[o].nativeId != n && t.ops[o].publicId != n)
  }

  /** The intent learns the native identity; if the response is lost, only the tables know it. */
  lemma Binding(s0: State, s: State, s': State, op: Operation, n: Id, rt: Runtime, fault: Fault, r: Result<Operation>)
    requires Trying(s0, s, op.token, rt) && Holds(s, op) && op.kind.Create? && op.nativeId == NONE && OnlyOp(s.db, op.token, op.id)
    requires At(s, op.token, Some(n)) && NoRow(s.db, op.token) && Unclaimed(s.db, n) && n != NONE
    requires s' == s.(db := s'.db) && Transacted(s.db, BindTx(s.db, op, n), fault, s'.db, r)
    ensures Trying(s0, s', op.token, rt) && NoRow(s'.db, op.token) && OnlyOp(s'.db, op.token, op.id)
    ensures r.Ok? ==> r.value == BoundTo(op, n)
    ensures Holds(s', BoundTo(op, n)) || (r.Err? && s' == s)
  {
    TryMeans(s0, s, op.token, rt);
    var t := WithOp(s, BoundTo(op, n));
    Binds(s0, s, op, n, rt);
    BoundFacts(s, op, n);
    hide Trying, At, Unclaimed, NoRow, OnlyOp, Inv, OnlyAttempt, Lasting;
    assert s' == s || s' == t;
  }

  lemma Binds(s0: State, s: State, op: Operation, n: Id, rt: Runtime)
    requires Trying(s0, s, op.token, rt) && Holds(s, op) && op.kind.Create? && op.nativeId == NONE
    requires At(s, op.token, Some(n)) && NoRow(s.db, op.token) && Unclaimed(s.db, n) && n != NONE
    ensures BindTx(s.db, op, n).value.after == WithOp(s, BoundTo(op, n)).db
    ensures Trying(s0, WithOp(s, BoundTo(op, n)), op.token, rt)
  {
    TryMeans(s0, s, op.token, rt);
    hide Trying, Lasting, OnlyAttempt, Inv, At, Unclaimed, NoRow;
    BindAny(s, op, n, rt);
    BindStays(s, op, n, rt);
    LastingSame(s0.ledger.supply, s.db, WithOp(s, BoundTo(op, n)).db);
    TryStep(s0, s, WithOp(s, BoundTo(op, n)), op.token, rt);
  }

  lemma BoundFacts(s: State, op: Operation, n: Id)
    requires Holds(s, op) && NoRow(s.db, op.token) && OnlyOp(s.db, op.token, op.id)
    ensures var t := WithOp(s, BoundTo(op, n)); NoRow(t.db, op.token) && OnlyOp(t.db, op.token, op.id) && Holds(t, BoundTo(op, n))
  {
  }

  lemma BindAny(s: State, op: Operation, n: Id, rt: Runtime)
    requires Inv(s, rt) && Holds(s, op) && op.kind.Create? && op.nativeId == NONE && op.token in s.ledger.issued
    requires At(s, op.token, Some(n)) && NoRow(s.db, op.token) && Unclaimed(s.db, n) && n != NONE
    ensures BindTx(s.db, op, n).value.after == WithOp(s, BoundTo(op, n)).db
    ensures Inv(WithOp(s, BoundTo(op, n)), rt)
  {
    BindKeeps(s, op, n, rt);
  }

  lemma BindStays(s: State, op: Operation, n: Id, rt: Runtime)
    requires Inv(s, rt) && Holds(s, op)
    ensures OnlyAttempt(s, WithOp(s, BoundTo(op, n)), op.token)
  {
    hide Inv;
    InvParts(s, rt);
    BeginStays(s, BoundTo(op, n), rt);
  }

  /** The new container starts under the deadline of its creation intent. */
  lemma FirstStart(s0: State, s: State, s': State, op: Operation, n: Id, rt: Runtime)
    requires Trying(s0, s, op.token, rt) && Holds(s, op) && Starting(op.kind) && op.deadline.Some? && At(s, op.token, Some(n))
    requires s' == s.(native := s'.native)
    requires s'.native == s.native || (n in s.native && s'.native == s.native[n := s.native[n].(running := true)])
    ensures Trying(s0, s', op.token, rt) && At(s', op.token, Some(n))
  {
    TryMeans(s0, s, op.token, rt);
    hide Trying, Lasting;
    Beginning(s, op, rt, false);
    Launching(s, s, s', op, rt, n);
    hide Inv, OnlyAttempt;
    LastingSame(s0.ledger.supply, s.db, s'.db);
    TryStep(s0, s, s', op.token, rt);
  }

  /** The row of a creation, as the commit or the failed rollback saves it. */
  predicate RowFor(row: Sandbox, bound: Operation) {
    && row.id == bound.publicId && row.nativeId == bound.nativeId && row.token == bound.token && row.runtime == bound.runtime
    && row.expiresAt.Some? && row.nativeId != NONE && row.id != NONE
  }

  /** Ownership is committed; the creation intent goes with it unless it awaits adoption. */
  lemma Committing(s0: State, s: State, s': State, op: Operation, row: Sandbox, awaitAdoption: bool, rt: Runtime,
                   fault: Fault, r: Result<()>)
    requires Trying(s0, s, op.token, rt) && Holds(s, op) && op.kind.Create? && RowFor(row, op)
    requires At(s, op.token, Some(row.nativeId)) && NoRow(s.db, op.token) && OnlyOp(s.db, op.token, op.id)
    requires op.token in s.ledger.awaiting ==> awaitAdoption
    requires s0.ledger.supply <= row.nativeId && s0.ledger.supply <= row.id
    requires s' == s.(db := s'.db) && Transacted(s.db, CommitTx(s.db, op, row, awaitAdoption), fault, s'.db, r)
    ensures Trying(s0, s', op.token, rt) && OnlyOp(s'.db, op.token, op.id)
    ensures NoRow(s'.db, op.token) || (row.id in s'.db.rows && s'.db.rows[row.id] == row)
    ensures r.Ok? ==> row.id in s'.db.rows && s'.db.rows[row.id] == row && (if awaitAdoption then Holds(s', op) else op.id !in s'.db.ops)
    ensures r.Err? ==> s'.db == s.db || (row.id in s'.db.rows && s'.db.rows[row.id] == row)
    ensures fault.Clean? ==> r.Ok?
  {
    TryMeans(s0, s, op.token, rt);
    hide Trying, Lasting, OnlyAttempt, Inv;
    NewRowFits(s, op, row, rt);
    InsertRowKeeps(s, row, rt);
    var s1 := WithRow(s, row);
    if !awaitAdoption {
      CommittedIntent(s1, op, row, rt);
    }
    var t := if awaitAdoption then s1 else WithoutOp(s1, op.id);
    assert t.db == CommitTx(s.db, op, row, awaitAdoption).value.after;
    CommitStays(s, t, op, row, rt);
    LastingRow(s0.ledger.supply, s.db, t.db, row);
    TryStep(s0, s, t, op.token, rt);
    assert s' == s || s' == t;
  }

  lemma CommittedIntent(s: State, op: Operation, row: Sandbox, rt: Runtime)
    requires Inv(s, rt) && Holds(s, op) && row.id in s.db.rows && s.db.rows[row.id] == row && RowFor(row, op)
    requires op.token !in s.ledger.awaiting
    ensures Inv(WithoutOp(s, op.id), rt)
  {
    assert HasRow(s.db, op.token);
    RemoveOpKeeps(s, op.id, false, rt);
  }

  lemma NewRowFits(s: State, op: Operation, row: Sandbox, rt: Runtime)
    requires Inv(s, rt) && Holds(s, op) && op.kind.Create? && op.token in s.ledger.issued
    requires RowFor(row, BoundTo(op, row.nativeId)) && (op.nativeId == NONE ==> op.token in s.ledger.abandoned && Unclaimed(s.db, row.nativeId))
    requires op.nativeId == NONE || op.nativeId == row.nativeId
    requires At(s, op.token, Some(row.nativeId)) && NoRow(s.db, op.token)
    ensures RowFits(s, row, rt)
  {
    forall r | r in s.db.rows ensures s.db.rows[r].nativeId != row.nativeId && r != row.id {
      assert Touches(op, s.db.rows[r]) ==> Bound(op, s.db.rows[r]);
    }
    forall o | o in s.db.ops && Touches(s.db.ops[o], row) ensures Bound(s.db.ops[o], row) && s.db.ops[o].kind.Create? {
      assert Clash(s.db.ops[o], op);
    }
    assert HasUndo(s.db, op.token);
  }

  lemma CommitStays(s: State, t: State, op: Operation, row: Sandbox, rt: Runtime)
    requires Inv(s, rt) && Holds(s, op) && row.id !in s.db.rows && row.token == op.token
    requires t == s.(db := t.db) && t.db.rows == s.db.rows[row.id := row] && (t.db.ops == s.db.ops || t.db.ops == s.db.ops - {op.id})
    ensures OnlyAttempt(s, t, op.token)
  {
    Still(s, t, op.token);
    OthersRemain(s.db, t.db, op.id, row.id, op.token);
  }

  /******* Rollback *******/

  lemma TryHalts(s0: State, s: State, s': State, token: Id, rt: Runtime, n: Id)
    requires Trying(s0, s, token, rt) && At(s, token, Some(n))
    requires s' == s.(native := s'.native) && Halts(s.native, s'.native, n, true)
    ensures Trying(s0, s', token, rt) && At(s', token, Some(n))
    ensures n !in s'.native ==> Absent(s'.native, token)
  {
    TryMeans(s0, s, token, rt);
    hide Trying, Inv, Lasting;
    InvParts(s, rt);
    HaltIsEnv(s, s', n, true);
    EnvKeeps(s, s', rt);
    HaltStays(s, s', token, n, true);
    hide OnlyAttempt;
    LastingSame(s0.ledger.supply, s.db, s'.db);
    TryStep(s0, s, s', token, rt);
  }

  /** Row and intent are deleted once the container is gone, whatever part of the creation committed. */
  lemma TryDeletes(s0: State, s: State, s': State, known: Operation, rt: Runtime, fault: Fault, r: Result<()>)
    requires Trying(s0, s, known.token, rt) && Absent(s.native, known.token) && known.runtime == rt
    requires OnlyOp(s.db, known.token, known.id) && Names(s.db, known)
    requires s' == s.(db := s'.db) && Transacted(s.db, DeleteTx(s.db, known), fault, s'.db, r)
    ensures Trying(s0, s', known.token, rt)
    ensures fault.Clean? ==> r.Ok?
    ensures r.Ok? ==> NoRow(s'.db, known.token) && IntentOf(s'.db, known.token).None?
  {
    TryMeans(s0, s, known.token, rt);
    DeleteStays(s, known, rt);
    hide Trying, Lasting, Inv, OnlyAttempt, DeleteTx;
    var t := s.(db := DeleteTx(s.db, known).value.after);
    TryStep(s0, s, t, known.token, rt) by { LastingLess(s0.ledger.supply, s.db, t.db, known.publicId) by { DeleteRows(s.db, known); } }
    assert s' == s || s' == t;
  }

  lemma DeleteRows(t: Tables, known: Operation)
    requires DeleteTx(t, known).Ok?
    ensures var t' := DeleteTx(t, known).value.after; t'.rows == t.rows || t'.rows == t.rows - {known.publicId}
    ensures forall lo :: NewOps(lo, t, DeleteTx(t, known).value.after)
  {
  }

  lemma DeleteOthers(t: Tables, known: Operation, rt: Runtime)
    requires RowsOk(t.rows, rt) && DeleteTx(t, known).Ok? && OnlyOp(t, known.token, known.id) && Names(t, known)
    ensures var t' := DeleteTx(t, known).value.after;
      && OtherRows(t, known.token) == OtherRows(t', known.token) && OtherOps(t, known.token) == OtherOps(t', known.token)
      && NoRow(t', known.token) && IntentOf(t', known.token).None?
  {
    OthersRemain(t, DeleteTx(t, known).value.after, known.id, known.publicId, known.token);
  }

  lemma DeleteStays(s: State, known: Operation, rt: Runtime)
    requires Inv(s, rt) && Absent(s.native, known.token) && known.runtime == rt
    requires OnlyOp(s.db, known.token, known.id) && Names(s.db, known)
    ensures DeleteTx(s.db, known).Ok?
    ensures var t := s.(db := DeleteTx(s.db, known).value.after);
      Inv(t, rt) && OnlyAttempt(s, t, known.token) && NoRow(t.db, known.token) && IntentOf(t.db, known.token).None?
  {
    assert RowsOk(s.db.rows, rt) && Known(s);
    hide Inv, Apart;
    DeleteWorks(s, known, rt);
    DeleteKeeps(s, known, rt);
    var t := s.(db := DeleteTx(s.db, known).value.after);
    Still(s, t, known.token);
    hide Known;
    DeleteOthers(s.db, known, rt);
  }

  lemma DeleteWorks(s: State, known: Operation, rt: Runtime)
    requires RowsOk(s.db.rows, rt) && known.runtime == rt && Names(s.db, known)
    ensures DeleteTx(s.db, known).Ok?
  {
  }

  function Abandoned(s: State, token: Id): State {
    s.(ledger := s.ledger.(abandoned := s.ledger.abandoned + {token}))
  }

  lemma AbandonKeeps(s0: State, s: State, token: Id, rt: Runtime)
    requires Trying(s0, s, token, rt)
    ensures Trying(s0, Abandoned(s, token), token, rt)
  {
    AbandonParts(s, token, rt);
    hide Inv;
  }

  lemma AbandonParts(s: State, token: Id, rt: Runtime)
    requires Inv(s, rt) && token in s.ledger.issued
    ensures Inv(Abandoned(s, token), rt)
  {
  }

  lemma Still2(s: State, s': State, token: Id)
    requires Known(s) && s'.native == s.native && s'.ledger.supply == s.ledger.supply
    ensures Apart(s, s', token)
  {
  }

  /** A creation that could not be rolled back keeps its owner, next to its intent. */
  lemma Owning(s0: State, s: State, s': State, stored: Operation, row: Sandbox, rt: Runtime, fault: Fault, r: Result<()>)
    requires Trying(s0, s, stored.token, rt) && Holds(s, stored) && stored.kind.Create? && NoRow(s.db, stored.token)
    requires At(s, stored.token, Some(row.nativeId)) && RowFor(row, BoundTo(stored, row.nativeId))
    requires stored.nativeId == NONE || stored.nativeId == row.nativeId
    requires stored.nativeId == NONE ==> stored.token in s.ledger.abandoned && Unclaimed(s.db, row.nativeId)
    requires s0.ledger.supply <= row.nativeId && s0.ledger.supply <= row.id
    requires s' == s.(db := s'.db) && Transacted(s.db, OwnTx(s.db, row), fault, s'.db, r)
    ensures Trying(s0, s', stored.token, rt)
  {
    TryMeans(s0, s, stored.token, rt);
    hide Trying, Lasting, OnlyAttempt, Inv;
    NewRowFits(s, stored, row, rt);
    InsertRowKeeps(s, row, rt);
    CommitStays(s, WithRow(s, row), stored, row, rt);
    LastingRow(s0.ledger.supply, s.db, WithRow(s, row).db, row);
    TryStep(s0, s, WithRow(s, row), stored.token, rt);
    assert s' == s || s' == WithRow(s, row);
  }

  /** Saving an owner that was committed after all changes nothing. */
  lemma OwningAgain(s0: State, s: State, s': State, token: Id, row: Sandbox, rt: Runtime, fault: Fault, r: Result<()>)
    requires Trying(s0, s, token, rt) && row.id in s.db.rows
    requires s' == s.(db := s'.db) && Transacted(s.db, OwnTx(s.db, row), fault, s'.db, r)
    ensures Trying(s0, s', token, rt)
  {
  }

  lemma AtDb(s: State, s': State, token: Id, n: Id)
    requires At(s, token, Some(n)) && s'.native == s.native && s'.ledger == s.ledger
    ensures At(s', token, Some(n))
  {
  }

  /** While an attempt has no row, its intent in either form names none. */
  lemma BlankNames(s: State, op: Operation, stored: Operation, row: Sandbox, rt: Runtime)
    requires Inv(s, rt) && Holds(s, stored) && NoRow(s.db, stored.token)
    requires stored == op || op == BoundTo(stored, row.nativeId) || stored == BoundTo(op, row.nativeId)
    requires row.id == BoundTo(op, row.nativeId).publicId && row.nativeId != NONE
    requires stored.nativeId == NONE ==> Unclaimed(s.db, row.nativeId)
    ensures Names(s.db, op) && row.id !in s.db.rows
  {
    forall r | r in s.db.rows ensures Touches(stored, s.db.rows[r]) ==> Bound(stored, s.db.rows[r]) {
    }
  }

  lemma CommittedNames(s: State, op: Operation, row: Sandbox, rt: Runtime)
    requires Inv(s, rt) && row.id in s.db.rows && s.db.rows[row.id] == row && RowFor(row, op)
    ensures Names(s.db, op)
  {
  }

  lemma TokenIsNew(s0: State, s: State, token: Id, rt: Runtime)
    requires Inv(s0, rt) && token == s0.ledger.supply && s.db == s0.db
    ensures token !in s.db.ops && token !in s.db.rows && token != NONE
  {
  }

  /** A committed creation, found again by its native identity and by its token. */
  lemma CreatedFacts(s: State, op: Operation, known: Operation, row: Sandbox, awaitAdoption: bool, rt: Runtime)
    requires Inv(s, rt) && row.id in s.db.rows && s.db.rows[row.id] == row && row.token == op.token
    requires known == BoundTo(op, row.nativeId) && known.publicId == row.id && known.kind.Create? && OnlyOp(s.db, op.token, op.id)
    requires if awaitAdoption then Holds(s, known) else op.id !in s.db.ops
    ensures OwnerOf(s.db, row.nativeId) == Some(row)
    ensures IntentOf(s.db, op.token) == if awaitAdoption then Some(known) else None
    ensures Adopted(known, row)
  {
    OwnerNow(s, row, row.nativeId, rt);
    if awaitAdoption {
      IntentIs(s.db, rt, known.id);
    }
  }

  /******* Adoption *******/

  /** A marked row keeps everything but its provenance, and no intent changes. */
  lemma Marking(s: State, s': State, row: Sandbox, rt: Runtime, fault: Fault, r: Result<()>)
    requires Inv(s, rt) && s' == s.(db := s'.db) && Transacted(s.db, ProvenanceTx(s.db, row, false), fault, s'.db, r)
    ensures Inv(s', rt) && Onward(s, s') && Spares(s, s', {})
    ensures s'.db.ops == s.db.ops && s'.db.rows.Keys == s.db.rows.Keys
    ensures forall k <- s'.db.rows :: s'.db.rows[k] == s.db.rows[k].(provenance := s'.db.rows[k].provenance)
    ensures r.Ok? ==> row.id in s'.db.rows && s'.db.rows[row.id].provenance == row.provenance && s'.db.rows[row.id].nativeId == row.nativeId
  {
    hide Inv;
    if ProvenanceTx(s.db, row, false).Ok? {
      var after := ProvenanceTx(s.db, row, false).value.after;
      ProvenanceKeeps(s, row, false, rt);
      assert State(after, s.native, s.ledger) == s.(db := after);
      assert after.rows.Keys == s.db.rows.Keys;
    }
    GentleOnward(s, s', rt);
  }


  /** The ledger after an adoption: the attempt is final unless an intent of it is still pending. */
  ghost function AdoptLedger(t: Tables, id: Id, g: Ledger): Ledger {
    if id in t.rows && !HasIntent(t, t.rows[id].token) then g.(adopted := g.adopted + {t.rows[id].token}) else g
  }

  /** Adoption writes provenance only, retires the creation intent, and makes the attempt final. */
  lemma Adopting(s: State, s': State, row: Sandbox, rt: Runtime, fault: Fault, r: Result<()>)
    requires Inv(s, rt)
    requires s'.native == s.native && Transacted(s.db, ProvenanceTx(s.db, row, true), fault, s'.db, r)
    requires s'.ledger == AdoptLedger(s'.db, row.id, s.ledger)
    ensures Inv(s', rt) && Kept(s.db, s'.db)
    ensures row.id in s.db.rows ==> OnlyAttempt(s, s', s.db.rows[row.id].token)
    ensures row.id !in s.db.rows ==> s' == s && r.Err?
    ensures Onward(s, s') && Spares(s, s', {})
    ensures r.Ok? ==> row.id in s'.db.rows && s'.db.rows[row.id] == s.db.rows[row.id].(provenance := row.provenance)
                      && s.db.rows[row.id].nativeId == row.nativeId
    ensures r.Ok? && s.db.rows[row.id].token !in s.ledger.abandoned ==>
      IntentOf(s'.db, s.db.rows[row.id].token).None? && s.db.rows[row.id].token in s'.ledger.adopted
  {
    hide Inv, OnlyAttempt, Onward, Spares, Kept, Gentle, HasIntent, IntentOf;
    if s'.db == s.db {
      AdoptNothing(s, s', row.id, rt);
      GentleRefl(s.db);
    } else {
      AdoptCommits(s, s', row, rt);
    }
    AdoptOnward(s, s', row, rt);
    if r.Ok? && s.db.rows[row.id].token !in s.ledger.abandoned {
      AdoptionIsFinal(s, s', row, rt);
      NoIntent(s'.db, s.db.rows[row.id].token);
      assert s'.db.rows[row.id].token == s.db.rows[row.id].token;
    }
  }

  lemma NoIntent(t: Tables, token: Id)
    requires !HasIntent(t, token)
    ensures IntentOf(t, token).None?
  {
  }

  lemma GentleRefl(t: Tables)
    ensures Gentle(t, t)
  {
  }

  lemma AdoptOnward(s: State, s': State, row: Sandbox, rt: Runtime)
    requires row.id in s.db.rows ==> OnlyAttempt(s, s', s.db.rows[row.id].token)
    requires row.id !in s.db.rows ==> s' == s
    requires Gentle(s.db, s'.db)
    ensures Onward(s, s') && Spares(s, s', {}) && Kept(s.db, s'.db)
  {
    if row.id in s.db.rows {
      var token := s.db.rows[row.id].token;
      assert s.ledger.supply <= s'.ledger.supply && s.ledger.adopted <= s'.ledger.adopted;
      GentleMoves(s, s', token);
      hide OnlyAttempt, Fate, Spared, Onward, Spares;
      AttemptOnward(s, s', token);
      GentleSpares(s, s');
    } else {
      OnwardRefl(s);
      SparesRefl(s);
    }
  }

  lemma AdoptNothing(s: State, s': State, id: Id, rt: Runtime)
    requires Inv(s, rt) && s'.db == s.db && s'.native == s.native && s'.ledger == AdoptLedger(s.db, id, s.ledger)
    ensures Inv(s', rt) && (id in s.db.rows ==> OnlyAttempt(s, s', s.db.rows[id].token)) && (id !in s.db.rows ==> s' == s)
  {
    if id in s.db.rows {
      var token := s.db.rows[id].token;
      Still2(s, s', token);
      if !HasIntent(s.db, token) {
        FinalKeeps(s, token, rt);
        assert s' == Final(s, token);
      } else {
        assert s' == s;
      }
    }
  }

  lemma AdoptCommits(s: State, s': State, row: Sandbox, rt: Runtime)
    requires Inv(s, rt) && ProvenanceTx(s.db, row, true).Ok? && s'.db == ProvenanceTx(s.db, row, true).value.after
    requires s'.native == s.native && s'.ledger == AdoptLedger(s'.db, row.id, s.ledger)
    ensures row.id in s.db.rows && Inv(s', rt) && OnlyAttempt(s, s', s.db.rows[row.id].token) && Gentle(s.db, s'.db)
  {
    ProvenanceKeeps(s, row, true, rt);
    assert s' == State(s'.db, s.native, AdoptionLedger(s.db, s'.db, row, true, s.ledger));
    AdoptStays(s, s', row, rt);
  }

  lemma AdoptStays(s: State, s': State, row: Sandbox, rt: Runtime)
    requires Inv(s, rt) && ProvenanceTx(s.db, row, true).Ok? && s'.db == ProvenanceTx(s.db, row, true).value.after
    requires s'.native == s.native && s'.ledger == AdoptLedger(s'.db, row.id, s.ledger)
    ensures OnlyAttempt(s, s', s.db.rows[row.id].token) && Gentle(s.db, s'.db)
  {
    var token := s.db.rows[row.id].token;
    AdoptedAreOurs(s, row, rt);
    hide Inv;
    InvParts(s, rt);
    hide Consistent, Labelled, NoOrphan, Timed, Adoptable, HasIntent;
    Still2(s, s', token);
    assert s.ledger.issued <= s'.ledger.issued && s.ledger.adopted <= s'.ledger.adopted && s'.ledger.abandoned == s.ledger.abandoned;
    assert s'.ledger.awaiting == s.ledger.awaiting;
    hide Apart, Known, Gentle;
    AdoptOthers(s.db, s'.db, row);
    AdoptGentle(s.db, s'.db, row);
  }

  /** The intents that an adoption retires belong to the adopted attempt. */
  lemma AdoptedAreOurs(s: State, row: Sandbox, rt: Runtime)
    requires Inv(s, rt) && ProvenanceTx(s.db, row, true).Ok?
    ensures forall k | k in s.db.ops && Adopted(s.db.ops[k], row) :: s.db.ops[k].token == s.db.rows[row.id].token
  {
  }

  lemma AdoptGentle(t: Tables, t': Tables, row: Sandbox)
    requires ProvenanceTx(t, row, true).Ok? && t' == ProvenanceTx(t, row, true).value.after
    ensures Gentle(t, t')
  {
  }

  lemma AdoptOthers(t: Tables, t': Tables, row: Sandbox)
    requires ProvenanceTx(t, row, true).Ok? && t' == ProvenanceTx(t, row, true).value.after
    requires forall k | k in t.ops && Adopted(t.ops[k], row) :: t.ops[k].token == t.rows[row.id].token
    ensures OtherRows(t', t.rows[row.id].token) == OtherRows(t, t.rows[row.id].token)
    ensures OtherOps(t', t.rows[row.id].token) == OtherOps(t, t.rows[row.id].token)
  {
  }

  lemma AdoptionIsFinal(s: State, s': State, row: Sandbox, rt: Runtime)
    requires Inv(s, rt) && ProvenanceTx(s.db, row, true).Ok? && s'.db == ProvenanceTx(s.db, row, true).value.after
    requires s.db.rows[row.id].token !in s.ledger.abandoned
    ensures !HasIntent(s'.db, s.db.rows[row.id].token)
  {
    var stored := s.db.rows[row.id];
    forall k | k in s.db.ops && s.db.ops[k].token == stored.token ensures Adopted(s.db.ops[k], row) {
      assert Touches(s.db.ops[k], stored) && Bound(s.db.ops[k], stored);
      assert s.db.ops[k].nativeId != NONE;
    }
  }
}
