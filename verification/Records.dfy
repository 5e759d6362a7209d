/** The two durable tables of internal/database and what one transaction means to them.
    Identities are opaque numbers; NONE stands for the empty string. */
module Records {
  import opened Prelude

  type Id = nat
  const NONE: Id := 0

  type Ports = map<string, string>

  datatype Runtime = Unset | Docker | Apple

  datatype Provenance = Provenance(image: string, root: string, manifest: string, native: string,
                                   cacheVersion: string, recoveryError: string)

  datatype Sandbox = Sandbox(id: Id, nativeId: Id, runtime: Runtime, token: Id, expiresAt: Option<int>,
                             ports: Ports, provenance: Provenance)
  {
    function RuntimeId(): Id {
      if nativeId != NONE then nativeId else id
    }
  }

  datatype Kind = Create | Start | Restart | Stop | Delete

  datatype Operation = Operation(id: Id, runtime: Runtime, publicId: Id, nativeId: Id, nativeName: Id,
                                 token: Id, kind: Kind, deadline: Option<int>)

  datatype Tables = Tables(rows: map<Id, Sandbox>, ops: map<Id, Operation>)

  /******* Invariants of the tables *******/

  predicate WellShaped(op: Operation) {
    match op.kind
    case Create => op.nativeName != NONE && op.deadline.Some?
    case Start => op.nativeId != NONE && op.deadline.Some?
    case Restart => op.nativeId != NONE && op.deadline.Some?
    case Stop => op.nativeId != NONE
    case Delete => op.nativeId != NONE
  }

  /** op and s mention a common identity. */
  predicate Touches(op: Operation, s: Sandbox) {
    op.token == s.token || op.publicId == s.id || op.nativeId == s.nativeId
  }

  /** op belongs to s. Only a creation may still lack the native or the public identity. */
  predicate Bound(op: Operation, s: Sandbox) {
    && op.token == s.token
    && (op.publicId == s.id || (op.kind.Create? && op.publicId == NONE))
    && (op.nativeId == s.nativeId || (op.kind.Create? && op.nativeId == NONE))
  }

  predicate Clash(a: Operation, b: Operation) {
    || a.token == b.token
    || (a.publicId == b.publicId && a.publicId != NONE)
    || (a.nativeId == b.nativeId && a.nativeId != NONE)
    || (a.nativeName == b.nativeName && a.nativeName != NONE)
  }

  /** Every row is a managed row of runtime rt, and rows never share a token or a native identity. */
  ghost predicate RowsOk(rows: map<Id, Sandbox>, rt: Runtime) {
    && (forall k <- rows :: rows[k].id == k && k != NONE && rows[k].nativeId != NONE
                            && rows[k].token != NONE && rows[k].runtime == rt)
    && (forall j <- rows, k <- rows ::
          rows[j].token == rows[k].token || rows[j].nativeId == rows[k].nativeId ==> j == k)
  }

  /** At most one pending intent belongs to one attempt. */
  ghost predicate OpsOk(ops: map<Id, Operation>, rt: Runtime) {
    && (forall k <- ops :: ops[k].id == k && ops[k].token != NONE && ops[k].runtime == rt && WellShaped(ops[k])
                           && (ops[k].nativeId != NONE ==> ops[k].publicId != NONE)
                           && (ops[k].kind.Stop? ==> ops[k].deadline.None?))
    && (forall j <- ops, k <- ops :: Clash(ops[j], ops[k]) ==> j == k)
  }

  /** Every intent other than a creation names an existing row, and agrees with it. */
  ghost predicate Linked(t: Tables) {
    && (forall k <- t.ops :: !t.ops[k].kind.Create? ==> t.ops[k].publicId in t.rows)
    && (forall k <- t.ops, r <- t.rows :: Touches(t.ops[k], t.rows[r]) ==> Bound(t.ops[k], t.rows[r]))
    && (forall k <- t.ops :: !t.ops[k].kind.Create? ==> Bound(t.ops[k], t.rows[t.ops[k].publicId]))
  }

  ghost predicate Consistent(t: Tables, rt: Runtime) {
    RowsOk(t.rows, rt) && OpsOk(t.ops, rt) && Linked(t)
  }

  /******* The owner of a native identity, the row and the intent of an attempt *******/

  /** The filter of FindByNativeID. */
  predicate Owns(s: Sandbox, native: Id) {
    s.nativeId == native || (s.nativeId == NONE && s.id == native)
  }

  ghost function OwnerOf(t: Tables, native: Id): Option<Sandbox>
  {
    if k :| k in t.rows && Owns(t.rows[k], native) then Some(t.rows[k]) else None
  }

  ghost function RowOf(t: Tables, token: Id): Option<Sandbox>
  {
    if k :| k in t.rows && t.rows[k].token == token then Some(t.rows[k]) else None
  }

  ghost function IntentOf(t: Tables, token: Id): Option<Operation>
  {
    var ops := t.ops;
    if k :| k in ops && ops[k].token == token then Some(ops[k]) else None
  }
}
