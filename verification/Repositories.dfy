/** internal/database/operations.go: every method is one transaction. What a transaction means is
    a function of the tables, stated by attempt token; the methods run the queries of the source,
    which match several columns, and are proved to mean the same. */
module Repositories {
  import opened Prelude
  import opened Records

  datatype Commit<T> = Commit(after: Tables, value: T)

  /** A transaction is atomic: it commits what was intended or nothing, and a lost response
      reports an error in either case. */
  ghost predicate Transacted<T>(before: Tables, intended: Result<Commit<T>>, fault: Fault, after: Tables, r: Result<T>) {
    match intended
    case Err(e) => after == before && r.Err? && (r.error == e || (fault.Fail? && r.error == Store))
    case Ok(c) =>
      && after == (if fault.Fail? then before else c.after)
      && (fault.Clean? ==> r == Ok(c.value))
      && (!fault.Clean? ==> r == Err(Store))
  }

  /******* What each transaction means *******/

  /** The checks of ValidateOperation. */
  ghost predicate Valid(t: Tables, op: Operation) {
    && op.id in t.ops
    && var stored := t.ops[op.id];
    && stored.kind == op.kind && stored.runtime == op.runtime && stored.token == op.token
    && ((op.publicId == NONE && op.kind.Create?) ||
        (if op.publicId in t.rows then
           var row := t.rows[op.publicId];
           && (op.nativeId == NONE || row.RuntimeId() == op.nativeId)
           && (row.runtime == Unset || row.runtime == op.runtime)
           && row.token == op.token
         else op.kind.Create?))
  }

  ghost function BeginCreateTx(t: Tables, op: Operation): Result<Commit<()>> {
    if op.publicId != NONE && op.publicId in t.rows then Err(Pending)
    else if op.publicId != NONE && (exists k :: k in t.ops && t.ops[k].publicId == op.publicId) then Err(Pending)
    else if op.id in t.ops then Err(Store)
    else Ok(Commit(t.(ops := t.ops[op.id := op]), ()))
  }

  /** A mutation needs an owner and no other pending intent. A deletion takes over a pending
      creation in place; a repeated stop or deletion re-enters its own intent. */
  ghost function BeginTx(t: Tables, rt: Runtime, native: Id, kind: Kind, deadline: Option<int>, newId: Id): Result<Commit<Operation>> {
    match OwnerOf(t, native)
    case None => Err(NotFound)
    case Some(row) =>
      match IntentOf(t, row.token)
      case None =>
        var op := Operation(newId, rt, row.id, native, NONE, row.token, kind, deadline);
        if newId in t.ops then Err(Store) else Ok(Commit(t.(ops := t.ops[newId := op]), op))
      case Some(p) =>
        if kind.Delete? && p.kind.Create? then
          var op := p.(kind := Delete, nativeId := native, publicId := row.id);
          Ok(Commit(t.(ops := t.ops[p.id := op]), op))
        else if p.kind == kind && (kind.Delete? || kind.Stop?) then Ok(Commit(t, p))
        else Err(Pending)
  }

  lemma BeginRows(t: Tables, rt: Runtime, native: Id, kind: Kind, deadline: Option<int>, newId: Id)
    ensures var r := BeginTx(t, rt, native, kind, deadline, newId); r.Ok? ==> r.value.after.rows == t.rows
  {
  }

  function BoundTo(op: Operation, native: Id): Operation {
    op.(nativeId := native, publicId := if op.publicId == NONE then native else op.publicId)
  }

  function BindTx(t: Tables, op: Operation, native: Id): Result<Commit<Operation>> {
    var bound := BoundTo(op, native);
    Ok(Commit(if op.id in t.ops
              then t.(ops := t.ops[op.id := t.ops[op.id].(nativeId := native, publicId := bound.publicId)])
              else t, bound))
  }

  function CommitTx(t: Tables, op: Operation, row: Sandbox, awaitAdoption: bool): Result<Commit<()>> {
    if row.id in t.rows then Err(Store)
    else Ok(Commit(Tables(t.rows[row.id := row], if awaitAdoption then t.ops else t.ops - {op.id}), ()))
  }

  function OwnTx(t: Tables, row: Sandbox): Result<Commit<()>> {
    if row.id in t.rows then Err(Store) else Ok(Commit(t.(rows := t.rows[row.id := row]), ()))
  }

  function Observed(row: Sandbox, rt: Runtime, ports: Option<Ports>, deadline: Option<int>): Sandbox {
    row.(ports := if ports.Some? then ports.value else row.ports, expiresAt := deadline, runtime := rt)
  }

  ghost function CompleteTx(t: Tables, op: Operation, ports: Option<Ports>, deadline: Option<int>): Result<Commit<()>> {
    if !Valid(t, op) then Err(Mismatch)
    else if op.publicId !in t.rows || !Owns(t.rows[op.publicId], op.nativeId) then Err(Mismatch)
    else Ok(Commit(Tables(t.rows[op.publicId := Observed(t.rows[op.publicId], op.runtime, ports, deadline)],
                          t.ops - {op.id}), ()))
  }

  function DeleteTx(t: Tables, op: Operation): Result<Commit<()>> {
    if op.publicId != NONE && op.publicId in t.rows then
      var row := t.rows[op.publicId];
      if row.RuntimeId() != op.nativeId || (row.runtime != Unset && row.runtime != op.runtime) || row.token != op.token
      then Err(Mismatch)
      else Ok(Commit(Tables(t.rows - {op.publicId}, t.ops - {op.id}), ()))
    else Ok(Commit(t.(ops := t.ops - {op.id}), ()))
  }

  ghost function SetDeadlineTx(t: Tables, native: Id, rt: Runtime, deadline: Option<int>): Result<Commit<()>> {
    match OwnerOf(t, native)
    case None => Err(NotFound)
    case Some(row) =>
      if IntentOf(t, row.token).Some? then Err(Pending)
      else Ok(Commit(t.(rows := t.rows[row.id := row.(expiresAt := deadline, runtime := rt)]), ()))
  }

  /** Adoption retires the creation intent and never resurrects a row or writes a deadline. */
  ghost function ProvenanceTx(t: Tables, row: Sandbox, adopt: bool): Result<Commit<()>> {
    if adopt && (exists k :: k in t.ops && t.ops[k].publicId == row.id && !t.ops[k].kind.Create?) then Err(Pending)
    else if row.id !in t.rows || t.rows[row.id].nativeId != row.nativeId then Err(Mismatch)
    else
      var rows := t.rows[row.id := t.rows[row.id].(provenance := row.provenance)];
      var ops := if adopt then map k | k in t.ops && !Adopted(t.ops[k], row) :: t.ops[k] else t.ops;
      Ok(Commit(Tables(rows, ops), ()))
  }

  predicate Adopted(op: Operation, row: Sandbox) {
    op.publicId == row.id && op.nativeId == row.nativeId && op.kind.Create?
  }

  /******* Uniqueness: the queries of the source find what the functions above name *******/

  lemma OwnerIs(t: Tables, rt: Runtime, k: Id, native: Id)
    requires RowsOk(t.rows, rt) && k in t.rows && Owns(t.rows[k], native)
    ensures OwnerOf(t, native) == Some(t.rows[k])
    ensures t.rows[k].nativeId == native && native != NONE && t.rows[k].id == k && t.rows[k].runtime == rt
  {
  }

  lemma IntentIs(t: Tables, rt: Runtime, k: Id)
    requires OpsOk(t.ops, rt) && k in t.ops
    ensures IntentOf(t, t.ops[k].token) == Some(t.ops[k])
  {
  }

  lemma RowIs(t: Tables, rt: Runtime, k: Id)
    requires RowsOk(t.rows, rt) && k in t.rows
    ensures RowOf(t, t.rows[k].token) == Some(t.rows[k])
  {
  }

  /** The filter of Pending, once the owner row is known. */
  predicate Blocks(op: Operation, owner: Sandbox, native: Id) {
    op.nativeId == native || op.publicId == owner.id || (op.token != NONE && op.token == owner.token)
  }

  /** Any of the three matches of Pending means that the intent belongs to the owner, and every
      intent in the tables passes ValidateOperation: a mutation can never bypass an older intent. */
  lemma PendingIsByToken(t: Tables, rt: Runtime, k: Id, r: Id)
    requires Consistent(t, rt) && k in t.ops && r in t.rows
    ensures Blocks(t.ops[k], t.rows[r], t.rows[r].nativeId) <==> t.ops[k].token == t.rows[r].token
    ensures Valid(t, t.ops[k])
  {
  }

  /** The owner of a native identity, and its pending intent. */
  lemma PendingOfOwner(t: Tables, rt: Runtime, native: Id)
    requires Consistent(t, rt) && OwnerOf(t, native).Some?
    ensures OwnerOf(t, native).value.runtime == rt
    ensures var p := IntentOf(t, OwnerOf(t, native).value.token);
      p.Some? ==> Valid(t, p.value) && p.value.token == OwnerOf(t, native).value.token
  {
    hide Blocks, Valid;
    var o :| o in t.rows && Owns(t.rows[o], native);
    OwnerIs(t, rt, o, native);
    if k :| k in t.ops && t.ops[k].token == t.rows[o].token {
      IntentIs(t, rt, k);
      PendingIsByToken(t, rt, k, o);
    }
  }

  /** Whatever intent a caller comes with, stale or foreign: it passes validation only if it is still stored for the same
      attempt, and no transaction that retires an intent changes a row of another attempt. */
  lemma ForeignRowsStay(t: Tables, op: Operation, ports: Option<Ports>, deadline: Option<int>, k: Id)
    requires NONE !in t.rows && k in t.rows && t.rows[k].token != op.token
    ensures Valid(t, op) ==> op.id in t.ops && t.ops[op.id].token == op.token && t.ops[op.id].kind == op.kind && op.publicId != k
    ensures CompleteTx(t, op, ports, deadline).Ok? ==>
      && Valid(t, op) && op.publicId in t.rows && t.rows[op.publicId].token == op.token
      && k in CompleteTx(t, op, ports, deadline).value.after.rows && CompleteTx(t, op, ports, deadline).value.after.rows[k] == t.rows[k]
    ensures DeleteTx(t, op).Ok? ==> k in DeleteTx(t, op).value.after.rows && DeleteTx(t, op).value.after.rows[k] == t.rows[k]
  {
  }

  /******* Marks *******/

  /** The row number k has another provenance. */
  function Marked(t: Tables, k: Id, p: Provenance): Tables {
    if k in t.rows then t.(rows := t.rows[k := t.rows[k].(provenance := p)]) else t
  }

  /** b is the same transaction as a, on the marked tables. */
  predicate SameButMarked<T(==)>(a: Result<Commit<T>>, b: Result<Commit<T>>, k: Id, p: Provenance) {
    if a.Err? then b == Err(a.error) else b.Ok? && b.value == Commit(Marked(a.value.after, k, p), a.value.value)
  }

  /** No transaction of the lifecycle looks at the provenance of a row. A mark that is written between two calls of an
      operation, without its lock, might as well have been written before it. */
  lemma MarkCommutes(t: Tables, rt: Runtime, k: Id, p: Provenance, op: Operation, row: Sandbox, await: bool,
                     native: Id, kind: Kind, newId: Id, ports: Option<Ports>, deadline: Option<int>)
    requires RowsOk(t.rows, rt) && k in t.rows
    ensures var m := Marked(t, k, p);
      && SameButMarked(BeginCreateTx(t, op), BeginCreateTx(m, op), k, p)
      && SameButMarked(BindTx(t, op, native), BindTx(m, op, native), k, p)
      && SameButMarked(CommitTx(t, op, row, await), CommitTx(m, op, row, await), k, p)
      && SameButMarked(BeginTx(t, rt, native, kind, deadline, newId), BeginTx(m, rt, native, kind, deadline, newId), k, p)
      && SameButMarked(CompleteTx(t, op, ports, deadline), CompleteTx(m, op, ports, deadline), k, p)
      && SameButMarked(DeleteTx(t, op), DeleteTx(m, op), k, p)
      && SameButMarked(SetDeadlineTx(t, native, rt, deadline), SetDeadlineTx(m, native, rt, deadline), k, p)
  {
    MarkedCreation(t, k, p, op, row, await, native);
    MarkedBegin(t, rt, k, p, native, kind, newId, deadline);
    MarkedComplete(t, k, p, op, ports, deadline);
    MarkedDelete(t, k, p, op);
    MarkedDeadline(t, rt, k, p, native, deadline);
    hide *;
  }

  lemma MarkedCreation(t: Tables, k: Id, p: Provenance, op: Operation, row: Sandbox, await: bool, native: Id)
    requires k in t.rows
    ensures var m := Marked(t, k, p);
      && SameButMarked(BeginCreateTx(t, op), BeginCreateTx(m, op), k, p)
      && SameButMarked(BindTx(t, op, native), BindTx(m, op, native), k, p)
      && SameButMarked(CommitTx(t, op, row, await), CommitTx(m, op, row, await), k, p)
  {
    var m := Marked(t, k, p);
    if row.id !in t.rows {
      assert m.rows[row.id := row] == t.rows[row.id := row][k := t.rows[k].(provenance := p)];
    }
  }

  lemma MarkedBegin(t: Tables, rt: Runtime, k: Id, p: Provenance, native: Id, kind: Kind, newId: Id, deadline: Option<int>)
    requires RowsOk(t.rows, rt) && k in t.rows
    ensures SameButMarked(BeginTx(t, rt, native, kind, deadline, newId), BeginTx(Marked(t, k, p), rt, native, kind, deadline, newId), k, p)
  {
    MarkedOwner(t, rt, k, p, native);
    SameIntents(t, Marked(t, k, p));
    if OwnerOf(t, native).Some? {
      OwnerIsRow(t, rt, native);
    }
    hide OwnerOf, IntentOf, RowsOk;
  }

  lemma OwnerIsRow(t: Tables, rt: Runtime, native: Id)
    requires RowsOk(t.rows, rt) && OwnerOf(t, native).Some?
    ensures var row := OwnerOf(t, native).value; row.id in t.rows && t.rows[row.id] == row
  {
  }

  lemma SameIntents(t: Tables, m: Tables)
    requires m.ops == t.ops
    ensures forall token :: IntentOf(m, token) == IntentOf(t, token)
  {
  }

  lemma MarkedOwner(t: Tables, rt: Runtime, k: Id, p: Provenance, native: Id)
    requires RowsOk(t.rows, rt) && k in t.rows
    ensures OwnerOf(Marked(t, k, p), native) ==
      if OwnerOf(t, native).Some? && OwnerOf(t, native).value.id == k then Some(t.rows[k].(provenance := p)) else OwnerOf(t, native)
  {
    var m := Marked(t, k, p);
    if o :| o in t.rows && Owns(t.rows[o], native) {
      OwnerIs(t, rt, o, native);
      assert o in m.rows && Owns(m.rows[o], native);
      assert RowsOk(m.rows, rt);
      OwnerIs(m, rt, o, native);
    }
  }

  lemma MarkedDelete(t: Tables, k: Id, p: Provenance, op: Operation)
    requires k in t.rows
    ensures SameButMarked(DeleteTx(t, op), DeleteTx(Marked(t, k, p), op), k, p)
  {
    var m := Marked(t, k, p);
    assert op.publicId == k ==> m.rows - {k} == t.rows - {k};
    assert op.publicId != k ==> m.rows - {op.publicId} == (t.rows - {op.publicId})[k := t.rows[k].(provenance := p)];
  }

  lemma MarkedComplete(t: Tables, k: Id, p: Provenance, op: Operation, ports: Option<Ports>, deadline: Option<int>)
    requires k in t.rows
    ensures SameButMarked(CompleteTx(t, op, ports, deadline), CompleteTx(Marked(t, k, p), op, ports, deadline), k, p)
  {
    var m := Marked(t, k, p);
    assert Valid(m, op) == Valid(t, op);
    hide Valid;
    if op.publicId in t.rows {
      var row, row' := t.rows[op.publicId], m.rows[op.publicId];
      var o, o' := Observed(row, op.runtime, ports, deadline), Observed(row', op.runtime, ports, deadline);
      assert m.rows[op.publicId := o'] == Marked(t.(rows := t.rows[op.publicId := o]), k, p).rows;
    }
  }

  lemma MarkedDeadline(t: Tables, rt: Runtime, k: Id, p: Provenance, native: Id, deadline: Option<int>)
    requires RowsOk(t.rows, rt) && k in t.rows
    ensures SameButMarked(SetDeadlineTx(t, native, rt, deadline), SetDeadlineTx(Marked(t, k, p), native, rt, deadline), k, p)
  {
    MarkedOwner(t, rt, k, p, native);
    SameIntents(t, Marked(t, k, p));
    if OwnerOf(t, native).Some? {
      OwnerIsRow(t, rt, native);
      hide OwnerOf, RowsOk, IntentOf;
      var row := OwnerOf(t, native).value;
      var row' := Marked(t, k, p).rows[row.id];
      assert Marked(t, k, p).rows[row.id := row'.(expiresAt := deadline, runtime := rt)]
          == Marked(t.(rows := t.rows[row.id := row.(expiresAt := deadline, runtime := rt)]), k, p).rows;
    }
  }

  /** The durable tables, and one method for each transaction. A faulty call commits or not as its
      Fault says. */
  class Repository {
    const runtime: Runtime
    var rows: map<Id, Sandbox>
    var ops: map<Id, Operation>

    constructor (runtime: Runtime)
      ensures this.runtime == runtime && rows == map[] && ops == map[]
    {
      this.runtime := runtime;
      rows := map[];
      ops := map[];
    }

    ghost function T(): Tables
      reads this
    {
      Tables(rows, ops)
    }

    method FindByNativeId(native: Id) returns (r: Option<Sandbox>)
      requires RowsOk(rows, runtime)
      ensures r == OwnerOf(T(), native)
    {
      if k: Id :| k in rows && Owns(rows[k], native) {
        OwnerIs(T(), runtime, k, native);
        return Some(rows[k]);
      }
      return None;
    }

    /** Operations: every pending intent, once. */
    method Operations() returns (list: seq<Operation>)
      requires OpsOk(ops, runtime)
      ensures forall i | 0 <= i < |list| :: list[i].id in ops && ops[list[i].id] == list[i]
      ensures forall i, j | 0 <= i < j < |list| :: list[i].id != list[j].id
      ensures |list| == |ops| && forall k <- ops :: ops[k] in list
    {
      list := [];
      var rest := ops.Keys;
      while rest != {}
        invariant rest <= ops.Keys && |list| + |rest| == |ops|
        invariant forall i | 0 <= i < |list| :: list[i].id in ops && ops[list[i].id] == list[i] && list[i].id !in rest
        invariant forall i, j | 0 <= i < j < |list| :: list[i].id != list[j].id
        invariant forall k <- ops :: k in rest || ops[k] in list
      {
        var k :| k in rest;
        list := list + [ops[k]];
        rest := rest - {k};
      }
    }

    /** FindAll: every row, once. */
    method FindAll() returns (list: seq<Sandbox>)
      requires RowsOk(rows, runtime)
      ensures forall i | 0 <= i < |list| :: list[i].id in rows && rows[list[i].id] == list[i]
      ensures |list| == |rows| && forall k <- rows :: rows[k] in list
    {
      list := [];
      var rest := rows.Keys;
      while rest != {}
        invariant rest <= rows.Keys && |list| + |rest| == |rows|
        invariant forall i | 0 <= i < |list| :: list[i].id in rows && rows[list[i].id] == list[i]
        invariant forall k <- rows :: k in rest || rows[k] in list
      {
        var k :| k in rest;
        list := list + [rows[k]];
        rest := rest - {k};
      }
    }

    method FindByAttempt(rt: Runtime, token: Id) returns (r: Option<Sandbox>)
      requires RowsOk(rows, runtime) && rt == runtime
      ensures r == RowOf(T(), token)
    {
      if k: Id :| k in rows && rows[k].runtime == rt && rows[k].token == token {
        RowIs(T(), runtime, k);
        return Some(rows[k]);
      }
      return None;
    }

    /** Pending looks for an intent by native identity, public identity or token of the owner. */
    method FindPending(native: Id) returns (r: Option<Operation>)
      requires Consistent(T(), runtime)
      ensures OwnerOf(T(), native).Some? ==> r == IntentOf(T(), OwnerOf(T(), native).value.token)
      ensures OwnerOf(T(), native).None? ==>
        (if r.Some? then r.value.nativeId == native else forall k <- ops :: ops[k].nativeId != native)
      ensures r.Some? ==> r.value.id in ops && ops[r.value.id] == r.value
    {
      var owner := FindByNativeId(native);
      if owner.None? {
        if k: Id :| k in ops && ops[k].nativeId == native {
          return Some(ops[k]);
        }
        return None;
      }
      ghost var o :| o in rows && rows[o] == owner.value && Owns(rows[o], native);
      OwnerIs(T(), runtime, o, native);
      if k: Id :| k in ops && Blocks(ops[k], owner.value, native) {
        PendingIsByToken(T(), runtime, k, o);
        IntentIs(T(), runtime, k);
        return Some(ops[k]);
      }
      forall k | k in ops ensures ops[k].token != owner.value.token {
        PendingIsByToken(T(), runtime, k, o);
      }
      return None;
    }

    method ValidateOperation(op: Operation) returns (ok: bool)
      ensures ok == Valid(T(), op)
    {
      if op.id !in ops {
        return false;
      }
      var stored := ops[op.id];
      if stored.kind != op.kind || stored.runtime != op.runtime || stored.token != op.token {
        return false;
      }
      if op.publicId == NONE && op.kind.Create? {
        return true;
      }
      if op.publicId !in rows {
        return op.kind.Create?;
      }
      var row := rows[op.publicId];
      if (op.nativeId != NONE && row.RuntimeId() != op.nativeId)
         || (row.runtime != Unset && row.runtime != op.runtime) || row.token != op.token {
        return false;
      }
      return true;
    }

    method BeginCreate(op: Operation, fault: Fault) returns (r: Result<()>)
      modifies this
      ensures Transacted(old(T()), BeginCreateTx(old(T()), op), fault, T(), r)
    {
      if fault.Fail? {
        return Err(Store);
      }
      if op.publicId != NONE {
        if op.publicId in rows {
          return Err(Pending);
        }
        if k: Id :| k in ops && ops[k].publicId == op.publicId {
          return Err(Pending);
        }
      }
      if op.id in ops {
        return Err(Store);
      }
      ops := ops[op.id := op];
      return if fault.Lost? then Err(Store) else Ok(());
    }

    method BeginOperation(rt: Runtime, native: Id, kind: Kind, deadline: Option<int>, newId: Id, fault: Fault)
      returns (r: Result<Operation>)
      requires Consistent(T(), runtime) && rt == runtime
      modifies this
      ensures Transacted(old(T()), BeginTx(old(T()), rt, native, kind, deadline, newId), fault, T(), r)
    {
      hide RowsOk, OpsOk, Linked, Blocks, Valid, OwnerOf, IntentOf;
      if fault.Fail? {
        return Err(Store);
      }
      var owner := FindByNativeId(native);
      if owner.None? {
        return Err(NotFound);
      }
      var row := owner.value;
      PendingOfOwner(T(), runtime, native);
      if row.runtime != Unset && row.runtime != rt {
        return Err(Mismatch);
      }
      var pending := FindPending(native);
      if pending.Some? {
        var p := pending.value;
        var valid := ValidateOperation(p);
        if !valid {
          return Err(Mismatch);
        }
        if kind.Delete? && p.kind.Create? {
          if row.token != p.token {
            return Err(Mismatch);
          }
          var op := p.(kind := Delete, nativeId := native, publicId := row.id);
          ops := ops[op.id := op];
          return if fault.Lost? then Err(Store) else Ok(op);
        }
        if p.kind == kind && (kind.Delete? || kind.Stop?) {
          return if fault.Lost? then Err(Store) else Ok(p);
        }
        return Err(Pending);
      }
      if newId in ops {
        return Err(Store);
      }
      var op := Operation(newId, rt, row.id, native, NONE, row.token, kind, deadline);
      ops := ops[op.id := op];
      return if fault.Lost? then Err(Store) else Ok(op);
    }

    method BindCreation(op: Operation, native: Id, fault: Fault) returns (r: Result<Operation>)
      modifies this
      ensures Transacted(old(T()), BindTx(old(T()), op, native), fault, T(), r)
    {
      if fault.Fail? {
        return Err(Store);
      }
      var public := op.publicId;
      if public == NONE {
        public := native;
      }
      if op.id in ops {
        ops := ops[op.id := ops[op.id].(nativeId := native, publicId := public)];
      }
      return if fault.Lost? then Err(Store) else Ok(op.(nativeId := native, publicId := public));
    }

    method CommitCreation(op: Operation, row: Sandbox, awaitAdoption: bool, fault: Fault) returns (r: Result<()>)
      modifies this
      ensures Transacted(old(T()), CommitTx(old(T()), op, row, awaitAdoption), fault, T(), r)
    {
      if fault.Fail? || row.id in rows {
        return Err(Store);
      }
      rows := rows[row.id := row];
      if !awaitAdoption {
        ops := ops - {op.id};
      }
      return if fault.Lost? then Err(Store) else Ok(());
    }

    method CreateOwnership(row: Sandbox, fault: Fault) returns (r: Result<()>)
      modifies this
      ensures Transacted(old(T()), OwnTx(old(T()), row), fault, T(), r)
    {
      if fault.Fail? || row.id in rows {
        return Err(Store);
      }
      rows := rows[row.id := row];
      return if fault.Lost? then Err(Store) else Ok(());
    }

    method CompleteOperation(op: Operation, ports: Option<Ports>, deadline: Option<int>, fault: Fault) returns (r: Result<()>)
      modifies this
      ensures Transacted(old(T()), CompleteTx(old(T()), op, ports, deadline), fault, T(), r)
    {
      if fault.Fail? {
        return Err(Store);
      }
      var valid := ValidateOperation(op);
      if !valid {
        return Err(Mismatch);
      }
      if op.publicId !in rows || !Owns(rows[op.publicId], op.nativeId) {
        return Err(Mismatch);
      }
      var row := rows[op.publicId];
      if ports.Some? {
        row := row.(ports := ports.value);
      }
      row := row.(expiresAt := deadline, runtime := op.runtime);
      rows := rows[op.publicId := row];
      ops := ops - {op.id};
      return if fault.Lost? then Err(Store) else Ok(());
    }

    method DeleteOperation(op: Operation, fault: Fault) returns (r: Result<()>)
      modifies this
      ensures Transacted(old(T()), DeleteTx(old(T()), op), fault, T(), r)
    {
      if fault.Fail? {
        return Err(Store);
      }
      if op.publicId != NONE && op.publicId in rows {
        var row := rows[op.publicId];
        if row.RuntimeId() != op.nativeId || (row.runtime != Unset && row.runtime != op.runtime)
           || row.token != op.token {
          return Err(Mismatch);
        }
        rows := rows - {op.publicId};
      }
      ops := ops - {op.id};
      return if fault.Lost? then Err(Store) else Ok(());
    }

    method SetDeadline(native: Id, rt: Runtime, deadline: Option<int>, fault: Fault) returns (r: Result<()>)
      requires Consistent(T(), runtime) && rt == runtime
      modifies this
      ensures Transacted(old(T()), SetDeadlineTx(old(T()), native, rt, deadline), fault, T(), r)
    {
      if fault.Fail? {
        return Err(Store);
      }
      var owner := FindByNativeId(native);
      if owner.None? {
        return Err(NotFound);
      }
      var row := owner.value;
      if row.runtime != Unset && row.runtime != rt {
        return Err(Mismatch);
      }
      var pending := FindPending(native);
      if pending.Some? {
        return Err(Pending);
      }
      rows := rows[row.id := row.(expiresAt := deadline, runtime := rt)];
      return if fault.Lost? then Err(Store) else Ok(());
    }

    method UpdateProvenance(row: Sandbox, adopt: bool, fault: Fault) returns (r: Result<()>)
      modifies this
      ensures Transacted(old(T()), ProvenanceTx(old(T()), row, adopt), fault, T(), r)
    {
      if fault.Fail? {
        return Err(Store);
      }
      if adopt {
        if k: Id :| k in ops && ops[k].publicId == row.id && !ops[k].kind.Create? {
          return Err(Pending);
        }
      }
      if row.id !in rows || rows[row.id].nativeId != row.nativeId {
        return Err(Mismatch);
      }
      rows := rows[row.id := rows[row.id].(provenance := row.provenance)];
      if adopt {
        ops := map k | k in ops && !Adopted(ops[k], row) :: ops[k];
      }
      return if fault.Lost? then Err(Store) else Ok(());
    }
  }
}
