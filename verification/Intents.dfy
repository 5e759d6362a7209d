/** The durable world of the lifecycle protocol: tables, native containers, and a ledger of what was
    issued. The invariant below holds after every single database or native call, so it holds
    wherever the process dies. */
module Intents {
  import opened Prelude
  import opened Records
  import opened Repositories

  datatype Container = Container(name: Id, owner: Id, running: bool, restarting: bool, ports: Ports)

  type Natives = map<Id, Container>

  /** issued: tokens this application generated. awaiting: attempts whose creation intent outlives the
      commit until the service adopts them. adopted: attempts whose creation is final. abandoned:
      failed attempts whose row was saved although the intent never learned the native identity.
      Every identity in use is below supply. */
  datatype Ledger = Ledger(issued: set<Id>, awaiting: set<Id>, adopted: set<Id>, abandoned: set<Id>, supply: Id)

  datatype State = State(db: Tables, native: Natives, ledger: Ledger)

  ghost predicate HasRow(t: Tables, token: Id) {
    exists k :: k in t.rows && t.rows[k].token == token
  }

  ghost predicate HasIntent(t: Tables, token: Id) {
    exists k :: k in t.ops && t.ops[k].token == token
  }

  predicate Starting(kind: Kind) {
    kind.Create? || kind.Start? || kind.Restart?
  }

  /** A durable deadline: in the row, or in an intent that may be starting the container. */
  ghost predicate HasDeadline(t: Tables, token: Id) {
    || (exists k :: k in t.rows && t.rows[k].token == token && t.rows[k].expiresAt.Some?)
    || (exists k :: k in t.ops && t.ops[k].token == token && Starting(t.ops[k].kind) && t.ops[k].deadline.Some?)
  }

  /******* The invariant *******/

  ghost predicate Known(s: State) {
    var g := s.ledger;
    && 0 < g.supply && NONE !in g.issued
    && g.awaiting <= g.issued && g.adopted <= g.issued && g.abandoned <= g.issued
    && (forall t <- g.issued :: t < g.supply)
    && (forall k <- s.db.rows :: k < g.supply && s.db.rows[k].nativeId < g.supply && s.db.rows[k].token in g.issued)
    && (forall k <- s.db.ops :: k < g.supply && s.db.ops[k].nativeId < g.supply && s.db.ops[k].publicId < g.supply
                                && s.db.ops[k].nativeName < g.supply && s.db.ops[k].token in g.issued)
    && (forall n <- s.native :: 0 < n < g.supply && s.native[n].name < g.supply && s.native[n].owner < g.supply
                                && (s.native[n].restarting ==> s.native[n].running))
  }

  /** A token labels at most one container, and rows and intents point at the container they label. */
  ghost predicate Labelled(t: Tables, native: Natives, issued: set<Id>) {
    && (forall n <- native, m <- native :: native[n].owner in issued && native[n].owner == native[m].owner ==> n == m)
    && (forall k <- t.rows, n <- native :: t.rows[k].nativeId == n <==> native[n].owner == t.rows[k].token)
    && (forall k <- t.ops, n <- native :: Agree(t.ops[k], n, native[n]))
  }

  /** An intent that names container n carries its label, and an intent with the label of n names n:
      by identity or, for an unbound creation, by the exact name. */
  predicate Agree(op: Operation, n: Id, c: Container) {
    && (op.nativeId == n ==> c.owner == op.token)
    && (op.kind.Create? && c.name == op.nativeName ==> c.owner == op.token)
    && (c.owner == op.token ==> op.nativeId == n || (op.nativeId == NONE && op.kind.Create? && c.name == op.nativeName))
  }

  ghost predicate NoOrphan(t: Tables, native: Natives, issued: set<Id>) {
    forall n <- native :: native[n].owner in issued ==> HasRow(t, native[n].owner) || HasIntent(t, native[n].owner)
  }

  ghost predicate Timed(t: Tables, native: Natives, issued: set<Id>) {
    forall n <- native :: native[n].running && native[n].owner in issued ==> HasDeadline(t, native[n].owner)
  }

  predicate Undoing(kind: Kind) {
    kind.Create? || kind.Delete?
  }

  ghost predicate HasUndo(t: Tables, token: Id) {
    exists k :: k in t.ops && t.ops[k].token == token && Undoing(t.ops[k].kind)
  }

  /** Until an attempt is adopted, its one intent is the one it was begun with: the number of that intent is
      derived from the token. */
  predicate FirstIntent(op: Operation, awaiting: set<Id>, adopted: set<Id>) {
    op.token in awaiting && op.token !in adopted ==> op.id == op.token
  }

  /** A row of an attempt that awaits adoption still has its creation intent, possibly turned into a
      deletion. An adopted attempt has no creation intent left. */
  ghost predicate Adoptable(t: Tables, awaiting: set<Id>, adopted: set<Id>, abandoned: set<Id>) {
    && (forall k <- t.rows :: t.rows[k].token in awaiting && t.rows[k].token !in adopted ==> HasUndo(t, t.rows[k].token))
    && (forall o <- t.ops :: t.ops[o].kind.Create? ==> t.ops[o].token !in adopted)
    && (forall o <- t.ops :: FirstIntent(t.ops[o], awaiting, adopted))
    && (forall k <- t.rows, o <- t.ops ::
          && (t.rows[k].token == t.ops[o].token && t.ops[o].nativeId == NONE ==> t.ops[o].token in abandoned)
          && (t.rows[k].token == t.ops[o].token && t.ops[o].kind.Create? ==> t.rows[k].expiresAt.Some?))
  }

  ghost predicate Inv(s: State, rt: Runtime) {
    && Consistent(s.db, rt)
    && Known(s)
    && Labelled(s.db, s.native, s.ledger.issued)
    && NoOrphan(s.db, s.native, s.ledger.issued)
    && Timed(s.db, s.native, s.ledger.issued)
    && Adoptable(s.db, s.ledger.awaiting, s.ledger.adopted, s.ledger.abandoned)
  }

  lemma InvParts(s: State, rt: Runtime)
    requires Inv(s, rt)
    ensures Consistent(s.db, rt) && Known(s) && Labelled(s.db, s.native, s.ledger.issued)
    ensures NoOrphan(s.db, s.native, s.ledger.issued) && Timed(s.db, s.native, s.ledger.issued)
    ensures Adoptable(s.db, s.ledger.awaiting, s.ledger.adopted, s.ledger.abandoned)
  {
  }

  lemma InvFrom(s: State, rt: Runtime)
    requires Consistent(s.db, rt) && Known(s) && Labelled(s.db, s.native, s.ledger.issued)
    requires NoOrphan(s.db, s.native, s.ledger.issued) && Timed(s.db, s.native, s.ledger.issued)
    requires Adoptable(s.db, s.ledger.awaiting, s.ledger.adopted, s.ledger.abandoned)
    ensures Inv(s, rt)
  {
  }

  /** There is nothing at the start. */
  lemma Initially(rt: Runtime)
    ensures Inv(State(Tables(map[], map[]), map[], Ledger({}, {}, {}, {}, 1)), rt)
  {
  }

  /******* Steps of the environment and of the runtime *******/

  /** Time passes between two calls: containers may exit or disappear, and others may add containers
      that carry no token of ours. Nothing starts on its own. */
  ghost predicate EnvStep(s: State, s': State) {
    && s'.db == s.db
    && s.ledger.supply <= s'.ledger.supply && s'.ledger == s.ledger.(supply := s'.ledger.supply)
    && (forall n <- s'.native :: n in s.native ==> Settles(s.native[n], s'.native[n]))
    && (forall n <- s'.native :: n !in s.native ==> Foreign(n, s'.native[n], s.ledger.supply, s'.ledger.supply))
  }

  /** A container that somebody else created while the supply went from lo to hi. */
  predicate Foreign(n: Id, c: Container, lo: Id, hi: Id) {
    && lo <= n < hi
    && lo <= c.name < hi
    && (c.owner == NONE || lo <= c.owner < hi)
    && (c.restarting ==> c.running)
  }

  predicate Settles(c: Container, c': Container) {
    && c'.name == c.name && c'.owner == c.owner && c'.ports == c.ports
    && (c'.running ==> c.running) && (c'.restarting ==> c'.running || c' == c)
  }

  lemma EnvKeeps(s: State, s': State, rt: Runtime)
    requires Inv(s, rt) && EnvStep(s, s')
    ensures Inv(s', rt)
  {
    EnvKeepsKnown(s, s');
    EnvKeepsLabels(s, s');
    EnvKeepsCover(s, s');
  }

  lemma EnvKeepsKnown(s: State, s': State)
    requires Known(s) && EnvStep(s, s')
    ensures Known(s')
  {
  }

  lemma EnvKeepsLabels(s: State, s': State)
    requires Known(s) && Labelled(s.db, s.native, s.ledger.issued) && EnvStep(s, s')
    ensures Labelled(s'.db, s'.native, s'.ledger.issued)
  {
  }

  lemma EnvKeepsCover(s: State, s': State)
    requires Known(s) && EnvStep(s, s')
    requires NoOrphan(s.db, s.native, s.ledger.issued) && Timed(s.db, s.native, s.ledger.issued)
    ensures NoOrphan(s'.db, s'.native, s'.ledger.issued) && Timed(s'.db, s'.native, s'.ledger.issued)
  {
  }

  /******* Steps of the client *******/

  /** A new token, or another new identity, was generated. */
  function Issued(s: State, token: Id, awaitAdoption: bool): State
    requires token == s.ledger.supply
  {
    var g := s.ledger;
    s.(ledger := g.(issued := g.issued + {token}, supply := token + 1,
                    awaiting := if awaitAdoption then g.awaiting + {token} else g.awaiting))
  }

  lemma IssueKeeps(s: State, rt: Runtime, awaitAdoption: bool)
    requires Inv(s, rt)
    ensures Inv(Issued(s, s.ledger.supply, awaitAdoption), rt)
  {
    hide Inv;
    InvParts(s, rt);
    IssueKnown(s, awaitAdoption);
    IssueAdoptable(s, awaitAdoption);
    var s' := Issued(s, s.ledger.supply, awaitAdoption);
    assert s'.db == s.db && s'.native == s.native;
    IssueLabels(s, s');
    hide *;
    InvFrom(s', rt);
  }

  lemma IssueKnown(s: State, awaitAdoption: bool)
    requires Known(s)
    ensures Known(Issued(s, s.ledger.supply, awaitAdoption))
  {
  }

  lemma IssueLabels(s: State, s': State)
    requires Known(s) && s'.db == s.db && s'.native == s.native && s'.ledger.issued == s.ledger.issued + {s.ledger.supply}
    requires Labelled(s.db, s.native, s.ledger.issued)
    requires NoOrphan(s.db, s.native, s.ledger.issued) && Timed(s.db, s.native, s.ledger.issued)
    ensures Labelled(s.db, s.native, s'.ledger.issued)
    ensures NoOrphan(s.db, s.native, s'.ledger.issued) && Timed(s.db, s.native, s'.ledger.issued)
  {
    assert forall n <- s.native :: s.native[n].owner in s'.ledger.issued <==> s.native[n].owner in s.ledger.issued;
    hide Known, HasRow, HasIntent, HasDeadline, Agree;
  }

  lemma IssueAdoptable(s: State, awaitAdoption: bool)
    requires Known(s) && Adoptable(s.db, s.ledger.awaiting, s.ledger.adopted, s.ledger.abandoned)
    ensures var g := Issued(s, s.ledger.supply, awaitAdoption).ledger; Adoptable(s.db, g.awaiting, g.adopted, g.abandoned)
  {
    hide HasUndo;
    assert forall k <- s.db.rows :: s.db.rows[k].token != s.ledger.supply;
    assert forall o <- s.db.ops :: s.db.ops[o].token != s.ledger.supply;
  }

  /** Nothing durable or native carries the token yet. */
  ghost predicate Unused(s: State, token: Id) {
    && token in s.ledger.issued && token !in s.ledger.adopted
    && (forall k <- s.db.rows :: s.db.rows[k].token != token)
    && (forall k <- s.db.ops :: s.db.ops[k].token != token)
    && (forall n <- s.native :: s.native[n].owner != token)
  }

  /** Nothing durable or native uses the identity n as native or public identity, or as a name. */
  ghost predicate Free(s: State, n: Id) {
    && NONE < n < s.ledger.supply
    && n !in s.native && n !in s.db.rows
    && (forall k <- s.db.rows :: s.db.rows[k].nativeId != n)
    && (forall k <- s.db.ops :: s.db.ops[k].nativeId != n && s.db.ops[k].publicId != n && s.db.ops[k].nativeName != n)
    && (forall m <- s.native :: s.native[m].name != n)
  }

  /** op fits the tables as the intent number op.id, apart from the intent it replaces. */
  ghost predicate Fits(s: State, op: Operation, rt: Runtime) {
    && op.token in s.ledger.issued && op.token != NONE && op.runtime == rt && WellShaped(op)
    && (op.nativeId != NONE ==> op.publicId != NONE) && (op.kind.Stop? ==> op.deadline.None?)
    && op.id < s.ledger.supply && op.publicId < s.ledger.supply && op.nativeId < s.ledger.supply && op.nativeName < s.ledger.supply
    && (forall k <- s.db.ops :: k != op.id ==> !Clash(op, s.db.ops[k]))
    && (forall r <- s.db.rows :: Touches(op, s.db.rows[r]) ==> Bound(op, s.db.rows[r]))
    && (!op.kind.Create? ==> op.publicId in s.db.rows && Bound(op, s.db.rows[op.publicId]))
    && (forall n <- s.native :: Agree(op, n, s.native[n]))
    && (op.kind.Create? ==> op.token !in s.ledger.adopted)
    && FirstIntent(op, s.ledger.awaiting, s.ledger.adopted)
    && (forall r <- s.db.rows :: s.db.rows[r].token == op.token ==>
          (op.nativeId == NONE ==> op.token in s.ledger.abandoned) && (op.kind.Create? ==> s.db.rows[r].expiresAt.Some?))
  }

  function WithOp(s: State, op: Operation): State {
    s.(db := s.db.(ops := s.db.ops[op.id := op]))
  }

  function WithRow(s: State, row: Sandbox): State {
    s.(db := s.db.(rows := s.db.rows[row.id := row]))
  }

  function WithoutOp(s: State, id: Id): State {
    s.(db := s.db.(ops := s.db.ops - {id}))
  }

  /** An intent is inserted, or replaced by one of the same attempt that covers no less. */
  lemma PutOpKeeps(s: State, op: Operation, rt: Runtime)
    requires Inv(s, rt) && Fits(s, op, rt)
    requires op.id in s.db.ops ==>
      var was := s.db.ops[op.id];
      was.token == op.token && (Undoing(was.kind) ==> Undoing(op.kind))
      && (Starting(was.kind) && !Starting(op.kind) ==> exists r :: r in s.db.rows && s.db.rows[r].token == op.token && s.db.rows[r].expiresAt.Some?)
    ensures Inv(WithOp(s, op), rt)
  {
    hide Inv, Adoptable, Labelled, NoOrphan, Timed, Known, Linked, RowsOk, OpsOk;
    InvParts(s, rt);
    PutOpConsistent(s, op, rt);
    PutOpLabels(s, op, rt);
    PutOpCovers(s, op, rt);
    PutOpAdoptable(s, op, rt);
    hide *;
    InvFrom(WithOp(s, op), rt);
  }

  lemma PutOpConsistent(s: State, op: Operation, rt: Runtime)
    requires Consistent(s.db, rt) && Fits(s, op, rt)
    ensures Consistent(WithOp(s, op).db, rt)
  {
    PutOpOps(s, op, rt);
    PutOpLinked(s, op, rt);
  }

  lemma PutOpOps(s: State, op: Operation, rt: Runtime)
    requires OpsOk(s.db.ops, rt) && Fits(s, op, rt)
    ensures OpsOk(WithOp(s, op).db.ops, rt)
  {
    hide WellShaped, Touches, Bound, Agree, FirstIntent;
  }

  lemma PutOpLinked(s: State, op: Operation, rt: Runtime)
    requires RowsOk(s.db.rows, rt) && Linked(s.db) && Fits(s, op, rt)
    ensures Linked(WithOp(s, op).db)
  {
    hide WellShaped, Clash, Touches, Bound, Agree, FirstIntent;
  }

  lemma PutOpLabels(s: State, op: Operation, rt: Runtime)
    requires Known(s) && Labelled(s.db, s.native, s.ledger.issued) && Fits(s, op, rt)
    ensures Known(WithOp(s, op)) && Labelled(WithOp(s, op).db, s.native, s.ledger.issued)
  {
  }

  lemma PutOpCovers(s: State, op: Operation, rt: Runtime)
    requires OpsOk(s.db.ops, rt) && WellShaped(op)
    requires NoOrphan(s.db, s.native, s.ledger.issued) && Timed(s.db, s.native, s.ledger.issued)
    requires op.id in s.db.ops ==>
      var was := s.db.ops[op.id];
      was.token == op.token && (Starting(was.kind) && !Starting(op.kind) ==>
        exists r :: r in s.db.rows && s.db.rows[r].token == op.token && s.db.rows[r].expiresAt.Some?)
    ensures NoOrphan(WithOp(s, op).db, s.native, s.ledger.issued) && Timed(WithOp(s, op).db, s.native, s.ledger.issued)
  {
    var t, t' := s.db, WithOp(s, op).db;
    assert t'.ops[op.id] == op;
    forall n | n in s.native && s.native[n].owner in s.ledger.issued
      ensures HasRow(t', s.native[n].owner) || HasIntent(t', s.native[n].owner)
    {
      if !HasRow(t, s.native[n].owner) {
        var k :| k in t.ops && t.ops[k].token == s.native[n].owner;
        assert k in t'.ops && t'.ops[k].token == s.native[n].owner;
      }
    }
    forall n | n in s.native && s.native[n].running && s.native[n].owner in s.ledger.issued
      ensures HasDeadline(t', s.native[n].owner)
    {
      var token := s.native[n].owner;
      if r :| r in t.rows && t.rows[r].token == token && t.rows[r].expiresAt.Some? {
        assert r in t'.rows && t'.rows[r].token == token;
      } else {
        var k :| k in t.ops && t.ops[k].token == token && Starting(t.ops[k].kind) && t.ops[k].deadline.Some?;
        assert k in t'.ops && t'.ops[k].token == token;
      }
    }
  }

  lemma PutOpAdoptable(s: State, op: Operation, rt: Runtime)
    requires Fits(s, op, rt)
    requires Adoptable(s.db, s.ledger.awaiting, s.ledger.adopted, s.ledger.abandoned)
    requires op.id in s.db.ops ==> s.db.ops[op.id].token == op.token && (Undoing(s.db.ops[op.id].kind) ==> Undoing(op.kind))
    ensures Adoptable(WithOp(s, op).db, s.ledger.awaiting, s.ledger.adopted, s.ledger.abandoned)
  {
    var t, t' := s.db, WithOp(s, op).db;
    assert t'.ops[op.id] == op;
    forall k | k in t.rows && t.rows[k].token in s.ledger.awaiting && t.rows[k].token !in s.ledger.adopted
      ensures HasUndo(t', t.rows[k].token)
    {
      var o :| o in t.ops && t.ops[o].token == t.rows[k].token && Undoing(t.ops[o].kind);
      assert o in t'.ops && t'.ops[o].token == t.rows[k].token;
    }
  }

  /** A new row fits: its attempt has its creation intent, bound to the row, and nobody else's row or
      container is touched. */
  ghost predicate RowFits(s: State, row: Sandbox, rt: Runtime) {
    && NONE < row.id < s.ledger.supply && NONE < row.nativeId < s.ledger.supply
    && row.token in s.ledger.issued && row.runtime == rt && row.expiresAt.Some?
    && row.id !in s.db.rows
    && (forall r <- s.db.rows :: s.db.rows[r].token != row.token && s.db.rows[r].nativeId != row.nativeId)
    && (forall o <- s.db.ops :: Touches(s.db.ops[o], row) ==> Bound(s.db.ops[o], row) && s.db.ops[o].kind.Create?)
    && (forall o <- s.db.ops :: s.db.ops[o].token == row.token && s.db.ops[o].nativeId == NONE ==> row.token in s.ledger.abandoned)
    && (forall n <- s.native :: row.nativeId == n <==> s.native[n].owner == row.token)
    && HasUndo(s.db, row.token)
  }

  lemma InsertRowKeeps(s: State, row: Sandbox, rt: Runtime)
    requires Inv(s, rt) && RowFits(s, row, rt)
    ensures Inv(WithRow(s, row), rt)
  {
    hide Inv, Adoptable, Labelled, NoOrphan, Timed, Consistent, Known;
    InvParts(s, rt);
    InsertRowConsistent(s, row, rt);
    RowCovers(s, row);
    InsertRowAdoptable(s, row, rt);
    hide *;
    InvFrom(WithRow(s, row), rt);
  }

  lemma InsertRowAdoptable(s: State, row: Sandbox, rt: Runtime)
    requires RowFits(s, row, rt) && Adoptable(s.db, s.ledger.awaiting, s.ledger.adopted, s.ledger.abandoned)
    ensures var g := s.ledger; Adoptable(WithRow(s, row).db, g.awaiting, g.adopted, g.abandoned)
  {
    SameUndo(s.db, WithRow(s, row).db);
    hide HasUndo;
  }

  lemma SameUndo(t: Tables, t': Tables)
    requires t'.ops == t.ops
    ensures forall token :: HasUndo(t', token) <==> HasUndo(t, token)
  {
  }

  lemma InsertRowConsistent(s: State, row: Sandbox, rt: Runtime)
    requires Consistent(s.db, rt) && Known(s) && Labelled(s.db, s.native, s.ledger.issued) && RowFits(s, row, rt)
    ensures Consistent(WithRow(s, row).db, rt) && Known(WithRow(s, row))
    ensures Labelled(WithRow(s, row).db, s.native, s.ledger.issued)
  {
  }

  /** A row is inserted, or replaced by one that keeps a deadline wherever it had one. */
  lemma RowCovers(s: State, row: Sandbox)
    requires NoOrphan(s.db, s.native, s.ledger.issued) && Timed(s.db, s.native, s.ledger.issued)
    requires row.id in s.db.rows ==>
      var was := s.db.rows[row.id];
      was.token == row.token && (was.expiresAt.Some? && row.expiresAt.None? ==>
        forall n <- s.native :: s.native[n].owner == row.token ==> !s.native[n].running)
    ensures NoOrphan(WithRow(s, row).db, s.native, s.ledger.issued) && Timed(WithRow(s, row).db, s.native, s.ledger.issued)
  {
    var t, t' := s.db, WithRow(s, row).db;
    assert t'.rows[row.id] == row;
    forall n | n in s.native && s.native[n].owner in s.ledger.issued
      ensures HasRow(t', s.native[n].owner) || HasIntent(t', s.native[n].owner)
    {
      if r :| r in t.rows && t.rows[r].token == s.native[n].owner {
        assert r in t'.rows && t'.rows[r].token == s.native[n].owner;
      } else {
        var k :| k in t.ops && t.ops[k].token == s.native[n].owner;
        assert k in t'.ops && t'.ops[k].token == s.native[n].owner;
      }
    }
    forall n | n in s.native && s.native[n].running && s.native[n].owner in s.ledger.issued
      ensures HasDeadline(t', s.native[n].owner)
    {
      var token := s.native[n].owner;
      if r :| r in t.rows && t.rows[r].token == token && t.rows[r].expiresAt.Some? {
        assert r in t'.rows && t'.rows[r].token == token && t'.rows[r].expiresAt.Some?;
      } else {
        var k :| k in t.ops && t.ops[k].token == token && Starting(t.ops[k].kind) && t.ops[k].deadline.Some?;
        assert k in t'.ops && t'.ops[k].token == token;
      }
    }
  }

  /** Identity, token and runtime of a stored row never change. */
  lemma UpdateRowKeeps(s: State, row: Sandbox, rt: Runtime)
    requires Inv(s, rt) && row.id in s.db.rows
    requires var was := s.db.rows[row.id];
      && row.nativeId == was.nativeId && row.token == was.token && row.runtime == was.runtime
      && (was.expiresAt.Some? && row.expiresAt.None? ==>
            && (forall n <- s.native :: s.native[n].owner == row.token ==> !s.native[n].running)
            && (forall o <- s.db.ops :: s.db.ops[o].token == row.token ==> !s.db.ops[o].kind.Create?))
    ensures Inv(WithRow(s, row), rt)
  {
    hide Inv, Adoptable, Labelled, NoOrphan, Timed, Consistent, Known;
    InvParts(s, rt);
    UpdateRowConsistent(s, row, rt);
    RowCovers(s, row);
    UpdateRowAdoptable(s, row);
    hide *;
    InvFrom(WithRow(s, row), rt);
  }

  lemma UpdateRowAdoptable(s: State, row: Sandbox)
    requires Adoptable(s.db, s.ledger.awaiting, s.ledger.adopted, s.ledger.abandoned) && row.id in s.db.rows
    requires var was := s.db.rows[row.id];
      row.token == was.token && (was.expiresAt.Some? && row.expiresAt.None? ==>
        forall o <- s.db.ops :: s.db.ops[o].token == row.token ==> !s.db.ops[o].kind.Create?)
    ensures var g := s.ledger; Adoptable(WithRow(s, row).db, g.awaiting, g.adopted, g.abandoned)
  {
    SameUndo(s.db, WithRow(s, row).db);
    hide HasUndo;
  }

  lemma UpdateRowConsistent(s: State, row: Sandbox, rt: Runtime)
    requires Consistent(s.db, rt) && Known(s) && Labelled(s.db, s.native, s.ledger.issued) && row.id in s.db.rows
    requires var was := s.db.rows[row.id];
      row.nativeId == was.nativeId && row.token == was.token && row.runtime == was.runtime
    ensures Consistent(WithRow(s, row).db, rt) && Known(WithRow(s, row))
    ensures Labelled(WithRow(s, row).db, s.native, s.ledger.issued)
  {
    hide Labelled, Known, Linked, RowsOk, OpsOk;
    UpdateRowTables(s.db, row, rt);
    UpdateRowLabels(s, row);
  }

  lemma UpdateRowTables(t: Tables, row: Sandbox, rt: Runtime)
    requires RowsOk(t.rows, rt) && Linked(t) && row.id in t.rows
    requires var was := t.rows[row.id];
      row.nativeId == was.nativeId && row.token == was.token && row.runtime == was.runtime
    ensures var t' := t.(rows := t.rows[row.id := row]); RowsOk(t'.rows, rt) && Linked(t')
  {
    assert t.rows[row.id].id == row.id;
    assert forall op: Operation :: Touches(op, row) <==> Touches(op, t.rows[row.id]);
    assert forall op: Operation :: Bound(op, row) <==> Bound(op, t.rows[row.id]);
    hide Touches, Bound;
  }

  lemma UpdateRowLabels(s: State, row: Sandbox)
    requires Known(s) && Labelled(s.db, s.native, s.ledger.issued) && row.id in s.db.rows
    requires var was := s.db.rows[row.id];
      row.nativeId == was.nativeId && row.token == was.token
    ensures Known(WithRow(s, row)) && Labelled(WithRow(s, row).db, s.native, s.ledger.issued)
  {
    hide Agree;
  }

  /** No container of the attempt runs, or its row has a deadline. */
  ghost predicate Quiescent(s: State, token: Id) {
    || (forall n <- s.native :: s.native[n].owner == token ==> !s.native[n].running)
    || (exists r :: r in s.db.rows && s.db.rows[r].token == token && s.db.rows[r].expiresAt.Some?)
  }

  /** The creation of the attempt is final. */
  function Final(s: State, token: Id): State {
    s.(ledger := s.ledger.(adopted := s.ledger.adopted + {token}))
  }

  function Retired(s: State, id: Id, adopt: bool): State
    requires id in s.db.ops
  {
    if adopt then Final(WithoutOp(s, id), s.db.ops[id].token) else WithoutOp(s, id)
  }

  /** An intent is retired while the row of its attempt stays. */
  lemma RemoveOpKeeps(s: State, id: Id, adopt: bool, rt: Runtime)
    requires Inv(s, rt) && id in s.db.ops
    requires var op := s.db.ops[id];
      && HasRow(s.db, op.token)
      && (Starting(op.kind) ==> Quiescent(s, op.token))
      && (Undoing(op.kind) && op.token in s.ledger.awaiting ==> op.token in s.ledger.adopted || adopt)
    ensures Inv(Retired(s, id, adopt), rt)
  {
    hide Inv, HasRow, Quiescent, Adoptable, Labelled, NoOrphan, Timed;
    InvParts(s, rt);
    RemoveOpCovers(s, id, rt);
    RemoveOpConsistent(s, id, rt);
    RemoveOpAdoptable(s, id, adopt, rt);
    var s' := Retired(s, id, adopt);
    assert s'.db == WithoutOp(s, id).db && s'.native == s.native && s'.ledger.issued == s.ledger.issued;
    assert s.db.ops[id].token in s.ledger.issued;
    RetiredIsKnown(s, id, adopt);
    hide *;
    InvFrom(s', rt);
  }

  lemma RetiredIsKnown(s: State, id: Id, adopt: bool)
    requires id in s.db.ops && s.db.ops[id].token in s.ledger.issued && Known(WithoutOp(s, id))
    ensures Known(Retired(s, id, adopt))
  {
  }

  lemma RemoveOpAdoptable(s: State, id: Id, adopt: bool, rt: Runtime)
    requires OpsOk(s.db.ops, rt) && id in s.db.ops
    requires Adoptable(s.db, s.ledger.awaiting, s.ledger.adopted, s.ledger.abandoned)
    requires var op := s.db.ops[id]; Undoing(op.kind) && op.token in s.ledger.awaiting ==> op.token in s.ledger.adopted || adopt
    ensures var g := Retired(s, id, adopt).ledger; Adoptable(WithoutOp(s, id).db, g.awaiting, g.adopted, g.abandoned)
  {
    var t, t' := s.db, WithoutOp(s, id).db;
    var adopted' := Retired(s, id, adopt).ledger.adopted;
    forall o | o in t'.ops ensures t'.ops[o].token != t.ops[id].token {
      assert !Clash(t.ops[o], t.ops[id]);
    }
    forall k | k in t.rows && t.rows[k].token in s.ledger.awaiting && t.rows[k].token !in adopted'
      ensures HasUndo(t', t.rows[k].token)
    {
      var o :| o in t.ops && t.ops[o].token == t.rows[k].token && Undoing(t.ops[o].kind);
      assert o in t'.ops;
    }
  }

  lemma FinalKeeps(s: State, token: Id, rt: Runtime)
    requires Inv(s, rt) && token in s.ledger.issued && !HasIntent(s.db, token)
    ensures Inv(Final(s, token), rt)
  {
  }

  lemma RemoveOpConsistent(s: State, id: Id, rt: Runtime)
    requires Consistent(s.db, rt) && Known(s) && Labelled(s.db, s.native, s.ledger.issued)
    ensures Consistent(WithoutOp(s, id).db, rt) && Known(WithoutOp(s, id))
    ensures Labelled(WithoutOp(s, id).db, s.native, s.ledger.issued)
  {
  }

  lemma RemoveOpCovers(s: State, id: Id, rt: Runtime)
    requires OpsOk(s.db.ops, rt) && id in s.db.ops
    requires NoOrphan(s.db, s.native, s.ledger.issued) && Timed(s.db, s.native, s.ledger.issued)
    requires HasRow(s.db, s.db.ops[id].token)
    requires Starting(s.db.ops[id].kind) ==> Quiescent(s, s.db.ops[id].token)
    ensures NoOrphan(WithoutOp(s, id).db, s.native, s.ledger.issued) && Timed(WithoutOp(s, id).db, s.native, s.ledger.issued)
  {
    var t, t' := s.db, WithoutOp(s, id).db;
    forall n | n in s.native && s.native[n].owner in s.ledger.issued
      ensures HasRow(t', s.native[n].owner) || HasIntent(t', s.native[n].owner)
    {
      if r :| r in t.rows && t.rows[r].token == s.native[n].owner {
        assert r in t'.rows && t'.rows[r].token == s.native[n].owner;
      } else {
        var k :| k in t.ops && t.ops[k].token == s.native[n].owner;
        assert k in t'.ops && t'.ops[k].token == s.native[n].owner;
      }
    }
    forall n | n in s.native && s.native[n].running && s.native[n].owner in s.ledger.issued
      ensures HasDeadline(t', s.native[n].owner)
    {
      var token := s.native[n].owner;
      if r :| r in t.rows && t.rows[r].token == token && t.rows[r].expiresAt.Some? {
        assert r in t'.rows && t'.rows[r].token == token && t'.rows[r].expiresAt.Some?;
      } else {
        var k :| k in t.ops && t.ops[k].token == token && Starting(t.ops[k].kind) && t.ops[k].deadline.Some?;
        assert k in t'.ops && t'.ops[k].token == token;
      }
    }
  }

  /** Row and intent of an attempt disappear together, once no container carries its token. */
  lemma ForgetKeeps(s: State, id: Id, op: Operation, rt: Runtime)
    requires Inv(s, rt)
    requires id in s.db.ops ==> s.db.ops[id].token == op.token
    requires forall n <- s.native :: s.native[n].owner != op.token
    requires forall r <- s.db.rows :: s.db.rows[r].token == op.token <==> r == op.publicId
    requires op.publicId in s.db.rows ==> forall o <- s.db.ops :: s.db.ops[o].token == op.token ==> o == id
    ensures Inv(s.(db := Tables(s.db.rows - {op.publicId}, s.db.ops - {id})), rt)
  {
    hide Inv, Adoptable, Labelled, NoOrphan, Timed, Consistent, Known;
    InvParts(s, rt);
    ForgetConsistent(s, id, op, rt);
    ForgetCovers(s, id, op);
    ForgetAdoptable(s, id, op);
    hide *;
    InvFrom(s.(db := Tables(s.db.rows - {op.publicId}, s.db.ops - {id})), rt);
  }

  lemma ForgetCovers(s: State, id: Id, op: Operation)
    requires NoOrphan(s.db, s.native, s.ledger.issued) && Timed(s.db, s.native, s.ledger.issued)
    requires id in s.db.ops ==> s.db.ops[id].token == op.token
    requires op.publicId in s.db.rows ==> s.db.rows[op.publicId].token == op.token
    requires forall n <- s.native :: s.native[n].owner != op.token
    ensures var t' := Tables(s.db.rows - {op.publicId}, s.db.ops - {id});
      NoOrphan(t', s.native, s.ledger.issued) && Timed(t', s.native, s.ledger.issued)
  {
    hide HasRow, HasIntent, HasDeadline;
    var t, t' := s.db, Tables(s.db.rows - {op.publicId}, s.db.ops - {id});
    forall n | n in s.native && s.native[n].owner in s.ledger.issued
      ensures HasRow(t', s.native[n].owner) || HasIntent(t', s.native[n].owner)
      ensures HasDeadline(t, s.native[n].owner) ==> HasDeadline(t', s.native[n].owner)
    {
      ForgetOthers(t, t', id, op, s.native[n].owner);
    }
  }

  lemma ForgetAdoptable(s: State, id: Id, op: Operation)
    requires Adoptable(s.db, s.ledger.awaiting, s.ledger.adopted, s.ledger.abandoned)
    requires id in s.db.ops ==> s.db.ops[id].token == op.token
    requires forall r <- s.db.rows :: s.db.rows[r].token == op.token ==> r == op.publicId
    ensures var t', g := Tables(s.db.rows - {op.publicId}, s.db.ops - {id}), s.ledger;
      Adoptable(t', g.awaiting, g.adopted, g.abandoned)
  {
    var t, t' := s.db, Tables(s.db.rows - {op.publicId}, s.db.ops - {id});
    forall token | token != op.token && HasUndo(t, token) ensures HasUndo(t', token) {
      var o :| o in t.ops && t.ops[o].token == token && Undoing(t.ops[o].kind);
      assert o in t'.ops;
    }
    hide HasUndo;
  }

  lemma ForgetOthers(t: Tables, t': Tables, id: Id, op: Operation, token: Id)
    requires t' == Tables(t.rows - {op.publicId}, t.ops - {id}) && token != op.token
    requires id in t.ops ==> t.ops[id].token == op.token
    requires op.publicId in t.rows ==> t.rows[op.publicId].token == op.token
    ensures HasRow(t, token) ==> HasRow(t', token)
    ensures HasIntent(t, token) ==> HasIntent(t', token)
    ensures HasDeadline(t, token) ==> HasDeadline(t', token)
  {
    if r :| r in t.rows && t.rows[r].token == token {
      assert r in t'.rows && t'.rows[r] == t.rows[r];
    }
    if r :| r in t.rows && t.rows[r].token == token && t.rows[r].expiresAt.Some? {
      assert r in t'.rows && t'.rows[r] == t.rows[r];
    }
    if k :| k in t.ops && t.ops[k].token == token {
      assert k in t'.ops && t'.ops[k] == t.ops[k];
    }
    if k :| k in t.ops && t.ops[k].token == token && Starting(t.ops[k].kind) && t.ops[k].deadline.Some? {
      assert k in t'.ops && t'.ops[k] == t.ops[k];
    }
  }

  lemma ForgetConsistent(s: State, id: Id, op: Operation, rt: Runtime)
    requires Consistent(s.db, rt) && Known(s) && Labelled(s.db, s.native, s.ledger.issued)
    requires forall r <- s.db.rows :: s.db.rows[r].token == op.token <==> r == op.publicId
    requires op.publicId in s.db.rows ==> forall o <- s.db.ops :: s.db.ops[o].token == op.token ==> o == id
    ensures var s' := s.(db := Tables(s.db.rows - {op.publicId}, s.db.ops - {id}));
      Consistent(s'.db, rt) && Known(s') && Labelled(s'.db, s.native, s.ledger.issued)
  {
  }

  /******* Steps of the native runtime *******/

  /** A container is created for the creation intent o. */
  lemma NativeCreateKeeps(s: State, o: Id, n: Id, c: Container, rt: Runtime)
    requires Inv(s, rt) && o in s.db.ops && s.db.ops[o].kind.Create? && !c.running && !c.restarting
    requires c.owner == s.db.ops[o].token && c.name == s.db.ops[o].nativeName
    requires forall m <- s.native :: s.native[m].owner != c.owner
    requires NONE < n < s.ledger.supply && n !in s.native
    requires s.db.ops[o].nativeId == n || (s.db.ops[o].nativeId == NONE && forall k <- s.db.ops :: s.db.ops[k].nativeId != n)
    requires forall r <- s.db.rows :: s.db.rows[r].nativeId != n && s.db.rows[r].token != c.owner
    ensures Inv(s.(native := s.native[n := c]), rt)
  {
    hide Inv, Adoptable, Labelled, NoOrphan, Timed, Linked, RowsOk, HasIntent;
    InvParts(s, rt);
    NewContainerAgrees(s, o, n, c, rt);
    NewContainerLabels(s, n, c);
    NewContainerKnown(s, n, c);
    assert HasIntent(s.db, c.owner) by { IntentThere(s.db, o); }
    NewContainerCovered(s.db, s.native, s.ledger.issued, n, c);
    hide *;
    InvFrom(s.(native := s.native[n := c]), rt);
  }

  lemma IntentThere(t: Tables, o: Id)
    requires o in t.ops
    ensures HasIntent(t, t.ops[o].token)
  {
  }

  lemma NewContainerAgrees(s: State, o: Id, n: Id, c: Container, rt: Runtime)
    requires OpsOk(s.db.ops, rt) && o in s.db.ops && s.db.ops[o].kind.Create?
    requires c.owner == s.db.ops[o].token && c.name == s.db.ops[o].nativeName && n != NONE
    requires s.db.ops[o].nativeId == n || (s.db.ops[o].nativeId == NONE && forall k <- s.db.ops :: s.db.ops[k].nativeId != n)
    ensures forall k <- s.db.ops :: Agree(s.db.ops[k], n, c)
  {
    forall k | k in s.db.ops ensures Agree(s.db.ops[k], n, c) {
      if k != o {
        assert !Clash(s.db.ops[k], s.db.ops[o]);
      }
    }
  }

  lemma NewContainerLabels(s: State, n: Id, c: Container)
    requires Labelled(s.db, s.native, s.ledger.issued) && n !in s.native
    requires forall m <- s.native :: s.native[m].owner != c.owner
    requires forall k <- s.db.ops :: Agree(s.db.ops[k], n, c)
    requires forall r <- s.db.rows :: s.db.rows[r].nativeId != n && s.db.rows[r].token != c.owner
    ensures Labelled(s.db, s.native[n := c], s.ledger.issued)
  {
    hide Agree;
  }

  lemma NewContainerKnown(s: State, n: Id, c: Container)
    requires Known(s) && NONE < n < s.ledger.supply && c.name < s.ledger.supply && c.owner < s.ledger.supply && !c.restarting
    ensures Known(s.(native := s.native[n := c]))
  {
  }

  lemma NewContainerCovered(t: Tables, native: Natives, issued: set<Id>, n: Id, c: Container)
    requires NoOrphan(t, native, issued) && Timed(t, native, issued) && HasIntent(t, c.owner) && !c.running
    ensures NoOrphan(t, native[n := c], issued) && Timed(t, native[n := c], issued)
  {
    hide HasRow, HasIntent, HasDeadline;
  }

  /** A container starts only under a durable deadline. */
  lemma NativeStartKeeps(s: State, n: Id, rt: Runtime)
    requires Inv(s, rt) && n in s.native && (s.native[n].owner in s.ledger.issued ==> HasDeadline(s.db, s.native[n].owner))
    ensures Inv(s.(native := s.native[n := s.native[n].(running := true)]), rt)
  {
    RelabelKeeps(s, n, s.native[n].(running := true));
  }

  lemma RelabelKeeps(s: State, n: Id, c: Container)
    requires Known(s) && Labelled(s.db, s.native, s.ledger.issued) && n in s.native
    requires c.name == s.native[n].name && c.owner == s.native[n].owner && (c.restarting ==> c.running)
    ensures Known(s.(native := s.native[n := c])) && Labelled(s.db, s.native[n := c], s.ledger.issued)
  {
  }
}
