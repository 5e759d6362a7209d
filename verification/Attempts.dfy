/** One attempt at an intent, seen from outside: what every call it makes keeps, and where it ends. */
module Attempts {
  import opened Prelude
  import opened Records
  import opened Repositories
  import opened Intents
  import opened Protocol
  import opened Settlement
  import opened Daemons

  /******* Only one sandbox is touched *******/

  ghost function OtherRows(t: Tables, token: Id): map<Id, Sandbox> {
    map k | k in t.rows && t.rows[k].token != token :: t.rows[k]
  }

  ghost function OtherOps(t: Tables, token: Id): map<Id, Operation> {
    map k | k in t.ops && t.ops[k].token != token :: t.ops[k]
  }

  /** Containers of other attempts do no more than the environment lets them. */
  ghost predicate Apart(s: State, s': State, token: Id) {
    && (forall n <- s.native :: n < s.ledger.supply)
    && (forall n <- s'.native :: n < s'.ledger.supply && (n in s.native || s.ledger.supply <= n))
    && (forall n <- s'.native :: n in s.native ==> s'.native[n].owner == s.native[n].owner)
    && (forall n <- s'.native :: n in s.native && s.native[n].owner != token ==> Settles(s.native[n], s'.native[n]))
  }

  ghost predicate OnlyAttempt(s: State, s': State, token: Id) {
    && s.ledger.supply <= s'.ledger.supply
    && s.ledger.issued <= s'.ledger.issued && s.ledger.adopted <= s'.ledger.adopted && s.ledger.awaiting <= s'.ledger.awaiting
    && s.ledger.abandoned <= s'.ledger.abandoned && (forall t <- s'.ledger.abandoned :: t in s.ledger.abandoned || s.ledger.supply <= t)
    && OtherRows(s.db, token) == OtherRows(s'.db, token)
    && OtherOps(s.db, token) == OtherOps(s'.db, token)
    && Apart(s, s', token)
  }

  lemma OnlyAttemptTrans(s0: State, s1: State, s2: State, token: Id)
    requires OnlyAttempt(s0, s1, token) && OnlyAttempt(s1, s2, token)
    ensures OnlyAttempt(s0, s2, token)
  {
  }

  /** No row is added, and no row changes its native identity or its token. */
  ghost predicate Kept(t: Tables, t': Tables) {
    forall k <- t'.rows :: k in t.rows && t.rows[k].nativeId == t'.rows[k].nativeId && t.rows[k].token == t'.rows[k].token
  }

  lemma StepTrans(s0: State, s1: State, s2: State, token: Id)
    requires OnlyAttempt(s0, s1, token) && OnlyAttempt(s1, s2, token) && Kept(s0.db, s1.db) && Kept(s1.db, s2.db)
    ensures OnlyAttempt(s0, s2, token) && Kept(s0.db, s2.db)
  {
  }

  /******* The container of an attempt *******/

  /** n is where the container of the attempt is, if it is anywhere. */
  ghost predicate At(s: State, token: Id, n: Option<Id>) {
    && (forall m <- s.native :: s.native[m].owner == token ==> n == Some(m))
    && (n.Some? ==> n.value < s.ledger.supply && (n.value in s.native ==> s.native[n.value].owner == token))
  }

  ghost predicate Absent(native: Natives, token: Id) {
    forall m <- native :: native[m].owner != token
  }

  /** No container of the attempt runs. */
  ghost predicate Stopped(native: Natives, token: Id) {
    forall m <- native :: native[m].owner == token ==> !native[m].running
  }

  ghost predicate Holds(s: State, op: Operation) {
    op.id in s.db.ops && s.db.ops[op.id] == op
  }

  /** The rows of the attempt are at most the one that known names. */
  ghost predicate Names(t: Tables, known: Operation) {
    && (forall k <- t.rows :: t.rows[k].token == known.token ==> k == known.publicId && t.rows[k].nativeId == known.nativeId)
    && (known.publicId in t.rows ==> t.rows[known.publicId].token == known.token)
  }

  /******* During and after *******/

  /** The deadlines with which an intent may be retired: its own if it starts the container, or none. */
  predicate Ends(op: Operation, deadline: Option<int>) {
    deadline.None? || (!op.kind.Stop? && deadline == op.deadline)
  }

  /** What the rows can be once the intent op is retired, disturbed or not. */
  ghost predicate Outcome(t0: Tables, t: Tables, op: Operation) {
    if Undoing(op.kind) then forall k <- t.rows :: t.rows[k].token != op.token
    else t.rows.Keys == t0.rows.Keys && forall k <- t.rows :: t.rows[k].token == op.token ==> Ends(op, t.rows[k].expiresAt)
  }

  /** The intent op, pending in s0, is still pending in s, no row has changed, nothing else was touched, and if
      nobody interferes (calm) a recovery still leads to the same end. */
  ghost predicate During(s0: State, s: State, op: Operation, rt: Runtime, calm: bool) {
    && Inv(s, rt)
    && Holds(s, op)
    && OnlyAttempt(s0, s, op.token) && s.db.rows == s0.db.rows
    && (calm ==> Settled(s, op) == Settled(s0, op))
  }

  /** The intent is retired. */
  ghost predicate After(s0: State, s: State, op: Operation, rt: Runtime, calm: bool) {
    && Inv(s, rt)
    && op.id !in s.db.ops && (forall o <- s.db.ops :: s.db.ops[o].token != op.token)
    && OnlyAttempt(s0, s, op.token) && Kept(s0.db, s.db) && Outcome(s0.db, s.db, op)
    && (calm ==> s == Settled(s0, op))
  }

  lemma DuringMeans(s0: State, s: State, op: Operation, rt: Runtime, calm: bool)
    requires During(s0, s, op, rt, calm)
    ensures Inv(s, rt) && Holds(s, op) && s.db.rows == s0.db.rows && RowsOk(s.db.rows, rt) && Consistent(s.db, rt) && op.runtime == rt && op.token != NONE && WellShaped(op)
  {
  }

  lemma StoredIsValid(s: State, op: Operation, rt: Runtime)
    requires Inv(s, rt) && Holds(s, op)
    ensures Valid(s.db, op)
  {
  }

  lemma Beginning(s: State, op: Operation, rt: Runtime, calm: bool)
    requires Inv(s, rt) && Holds(s, op)
    ensures During(s, s, op, rt, calm)
  {
  }

  /** The environment acts between two calls. */
  lemma Passing(s0: State, s: State, s': State, op: Operation, rt: Runtime, calm: bool, n: Option<Id>)
    requires During(s0, s, op, rt, calm) && EnvStep(s, s') && (calm ==> s' == s)
    ensures During(s0, s', op, rt, calm) && s'.db == s.db && Inv(s', rt)
    ensures At(s, op.token, n) ==> At(s', op.token, n)
    ensures Stopped(s.native, op.token) ==> Stopped(s'.native, op.token)
    ensures Absent(s.native, op.token) ==> Absent(s'.native, op.token)
  {
    hide Inv;
    InvParts(s, rt);
    EnvKeeps(s, s', rt);
    PassStays(s, s', op.token, n);
    OnlyAttemptTrans(s0, s, s', op.token);
  }

  lemma PassStays(s: State, s': State, token: Id, n: Option<Id>)
    requires Known(s) && EnvStep(s, s') && token in s.ledger.issued
    ensures OnlyAttempt(s, s', token)
    ensures At(s, token, n) ==> At(s', token, n)
    ensures Stopped(s.native, token) ==> Stopped(s'.native, token)
    ensures Absent(s.native, token) ==> Absent(s'.native, token)
  {
  }

  lemma EnvOnly(s: State, s': State, token: Id, rt: Runtime)
    requires Inv(s, rt) && EnvStep(s, s')
    ensures OnlyAttempt(s, s', token)
  {
  }

  lemma Nowhere(s: State, token: Id)
    requires At(s, token, None)
    ensures Absent(s.native, token) && Stopped(s.native, token)
  {
  }

  lemma Label(s: State, token: Id, n: Id)
    requires At(s, token, Some(n)) && n in s.native
    ensures s.native[n].owner == token
  {
  }

  /** A stop or removal of the container of the attempt, or a call that had no effect. */
  predicate Halts(native: Natives, native': Natives, n: Id, remove: bool) {
    || native' == native
    || (remove && native' == native - {n})
    || (!remove && n in native && native' == native[n := native[n].(running := false, restarting := false)])
  }

  lemma Halting(s0: State, s: State, s': State, op: Operation, rt: Runtime, calm: bool, n: Id, remove: bool)
    requires During(s0, s, op, rt, calm) && At(s, op.token, Some(n))
    requires s' == s.(native := s'.native) && Halts(s.native, s'.native, n, remove)
    requires calm ==> if remove then Undoing(op.kind) else op.kind.Stop?
    ensures During(s0, s', op, rt, calm) && At(s', op.token, Some(n)) && Inv(s', rt)
    ensures Stopped(s.native, op.token) ==> Stopped(s'.native, op.token)
    ensures n !in s'.native ==> Absent(s'.native, op.token)
    ensures (n in s'.native ==> !s'.native[n].running) ==> Stopped(s'.native, op.token)
  {
    hide Inv, Settled, OnlyAttempt;
    InvParts(s, rt);
    HaltIsEnv(s, s', n, remove);
    EnvKeeps(s, s', rt);
    HaltStays(s, s', op.token, n, remove);
    OnlyAttemptTrans(s0, s, s', op.token);
    if calm {
      HaltLeads(s, s', op, n, remove);
    }
  }

  lemma HaltLeads(s: State, s': State, op: Operation, n: Id, remove: bool)
    requires At(s, op.token, Some(n)) && (if remove then Undoing(op.kind) else op.kind.Stop?)
    requires s' == s.(native := s'.native) && Halts(s.native, s'.native, n, remove)
    ensures Settled(s', op) == Settled(s, op)
  {
    if s'.native == s.native || n !in s.native {
      assert s'.native == s.native;
      assert s' == s;
    } else if remove {
      RemoveLeads(s, op, n);
    } else {
      StopLeads(s, op, n);
    }
  }

  lemma HaltIsEnv(s: State, s': State, n: Id, remove: bool)
    requires s' == s.(native := s'.native) && Halts(s.native, s'.native, n, remove)
    ensures EnvStep(s, s')
  {
  }

  lemma HaltStays(s: State, s': State, token: Id, n: Id, remove: bool)
    requires Known(s) && At(s, token, Some(n))
    requires s' == s.(native := s'.native) && Halts(s.native, s'.native, n, remove)
    ensures OnlyAttempt(s, s', token) && At(s', token, Some(n))
    ensures Stopped(s.native, token) ==> Stopped(s'.native, token)
    ensures n !in s'.native ==> Absent(s'.native, token)
    ensures n in s'.native && !s'.native[n].running ==> Stopped(s'.native, token)
  {
  }

  /** The attempt is undone: row and intent are deleted once its container is gone. */
  lemma Deleting(s0: State, s: State, s': State, op: Operation, known: Operation, rt: Runtime, calm: bool, fault: Fault, r: Result<()>)
    requires During(s0, s, op, rt, calm) && Absent(s.native, op.token) && Names(s.db, known)
    requires known.id == op.id && known.token == op.token && known.runtime == op.runtime && Undoing(op.kind)
    requires s' == s.(db := s'.db) && Transacted(s.db, DeleteTx(s.db, known), fault, s'.db, r)
    ensures r.Ok? ==> After(s0, s', op, rt, calm) && RowOf(s'.db, op.token).None?
    ensures Inv(s', rt) && (During(s0, s', op, rt, calm) || After(s0, s', op, rt, calm))
    ensures fault.Clean? ==> r.Ok?
  {
    Deletes(s0, s, op, known, rt, calm);
    hide During, After, Undoing, Absent, Names, DeleteTx;
    var t := s.(db := DeleteTx(s.db, known).value.after);
    assert s' == s || s' == t;
  }

  lemma Deletes(s0: State, s: State, op: Operation, known: Operation, rt: Runtime, calm: bool)
    requires During(s0, s, op, rt, calm) && Absent(s.native, op.token) && Names(s.db, known)
    requires known.id == op.id && known.token == op.token && known.runtime == op.runtime && Undoing(op.kind)
    ensures Inv(s, rt) && DeleteTx(s.db, known).Ok?
    ensures var t := s.(db := DeleteTx(s.db, known).value.after);
      After(s0, t, op, rt, calm) && RowOf(t.db, op.token).None?
  {
    hide Inv, OnlyAttempt, Settled, Names, Absent;
    InvParts(s, rt);
    UndoDeletes(s, op, known, rt);
    NamesOnly(s, known);
    var t := s.(db := DeleteTx(s.db, known).value.after);
    DeleteKeeps(s, known, rt);
    hide Kept, Consistent, Known, Labelled, NoOrphan, Timed, Adoptable, DeleteTx, HasRow, HasIntent;
    KeptSame(s0.db, s.db);
    StepTrans(s0, s, t, op.token);
    if calm {
      DeleteArrives(s, op, known, rt);
    }
  }

  lemma NamesOnly(s: State, known: Operation)
    requires Names(s.db, known)
    ensures forall r <- s.db.rows :: s.db.rows[r].token == known.token ==> r == known.publicId
    ensures Absent(s.native, known.token) ==> forall n <- s.native :: s.native[n].owner != known.token
  {
  }

  lemma KeptSame(t: Tables, t': Tables)
    requires t'.rows == t.rows
    ensures Kept(t, t')
  {
  }

  lemma UndoDeletes(s: State, op: Operation, known: Operation, rt: Runtime)
    requires Consistent(s.db, rt) && Known(s) && Holds(s, op) && Names(s.db, known)
    requires known.id == op.id && known.token == op.token && known.runtime == op.runtime
    ensures DeleteTx(s.db, known).Ok?
    ensures forall o <- s.db.ops :: s.db.ops[o].token == op.token ==> o == op.id
    ensures var s' := s.(db := DeleteTx(s.db, known).value.after);
      OnlyAttempt(s, s', op.token) && Kept(s.db, s'.db) && op.id !in s'.db.ops
      && (forall o <- s'.db.ops :: s'.db.ops[o].token != op.token) && (forall k <- s'.db.rows :: s'.db.rows[k].token != op.token)
  {
    OnlyIntent(s.db, op, rt);
    Still(s, s.(db := DeleteTx(s.db, known).value.after), op.token);
    hide Known, Linked, OpsOk, Apart;
    var t := DeleteTx(s.db, known).value.after;
    OthersRemain(s.db, t, op.id, known.publicId, op.token);
  }

  lemma OthersRemain(t: Tables, t': Tables, id: Id, k: Id, token: Id)
    requires (t'.ops == t.ops || t'.ops == t.ops - {id}) && (t'.rows == t.rows || t'.rows == t.rows - {k} || (k in t'.rows && t'.rows == t.rows[k := t'.rows[k]]))
    requires t'.ops == t.ops || (id in t.ops ==> t.ops[id].token == token)
    requires k in t.rows ==> t.rows[k].token == token
    requires k in t'.rows ==> t'.rows[k].token == token
    ensures OtherRows(t, token) == OtherRows(t', token) && OtherOps(t, token) == OtherOps(t', token)
  {
  }

  lemma OnlyIntent(t: Tables, op: Operation, rt: Runtime)
    requires OpsOk(t.ops, rt) && op.id in t.ops && t.ops[op.id] == op
    ensures forall o <- t.ops :: t.ops[o].token == op.token ==> o == op.id
  {
  }

  lemma Still(s: State, s': State, token: Id)
    requires Known(s) && s'.native == s.native && s'.ledger == s.ledger
    ensures Apart(s, s', token)
  {
  }

  /** The observed state is recorded. A deadline is dropped only after the container was seen not to run. */
  lemma Completing(s0: State, s: State, s': State, op: Operation, ports: Option<Ports>, deadline: Option<int>,
                   rt: Runtime, calm: bool, fault: Fault, r: Result<()>)
    requires During(s0, s, op, rt, calm) && !Undoing(op.kind) && (deadline.None? ==> Stopped(s.native, op.token)) && Ends(op, deadline)
    requires s' == s.(db := s'.db) && Transacted(s.db, CompleteTx(s.db, op, ports, deadline), fault, s'.db, r)
    requires calm ==> CompleteTx(s.db, op, ports, deadline).Ok? ==>
      s.(db := CompleteTx(s.db, op, ports, deadline).value.after) == Settled(s, op)
    ensures r.Ok? ==> After(s0, s', op, rt, calm)
    ensures Inv(s', rt) && (During(s0, s', op, rt, calm) || After(s0, s', op, rt, calm))
    ensures fault.Clean? ==> r.Ok?
    ensures r.Ok? ==> op.publicId in s'.db.rows && s'.db.rows[op.publicId] == Observed(s.db.rows[op.publicId], op.runtime, ports, deadline)
                      && s'.db.rows[op.publicId].token == op.token
  {
    Completes(s0, s, op, ports, deadline, rt, calm);
    hide During, After, Undoing, Stopped, Ends;
    var t := s.(db := CompleteTx(s.db, op, ports, deadline).value.after);
    assert s' == s || s' == t;
  }

  lemma Completes(s0: State, s: State, op: Operation, ports: Option<Ports>, deadline: Option<int>, rt: Runtime, calm: bool)
    requires During(s0, s, op, rt, calm) && !Undoing(op.kind) && (deadline.None? ==> Stopped(s.native, op.token)) && Ends(op, deadline)
    requires calm ==> CompleteTx(s.db, op, ports, deadline).Ok? ==>
      s.(db := CompleteTx(s.db, op, ports, deadline).value.after) == Settled(s, op)
    ensures Inv(s, rt) && CompleteTx(s.db, op, ports, deadline).Ok?
    ensures After(s0, s.(db := CompleteTx(s.db, op, ports, deadline).value.after), op, rt, calm)
    ensures op.publicId in s.db.rows && s.db.rows[op.publicId].token == op.token
  {
    hide Inv, OnlyAttempt, Settled;
    CompleteKeeps(s, op, ports, deadline, rt);
    InvParts(s, rt);
    CompleteStays(s, op, ports, deadline, rt);
    OnlyIntent(s.db, op, rt);
    OwnRow(s.db, op, rt);
    var t := s.(db := CompleteTx(s.db, op, ports, deadline).value.after);
    CompleteEnds(s.db, t.db, op, ports, deadline, rt);
    hide Kept, Consistent, Known, Ends, Stopped, Labelled, NoOrphan, Timed, Adoptable, Undoing;
    KeptSame(s0.db, s.db);
    StepTrans(s0, s, t, op.token);
  }

  lemma OwnRow(t: Tables, op: Operation, rt: Runtime)
    requires Consistent(t, rt) && op.id in t.ops && t.ops[op.id] == op && !Undoing(op.kind)
    ensures op.publicId in t.rows && t.rows[op.publicId].token == op.token
  {
  }

  lemma CompleteEnds(t: Tables, t': Tables, op: Operation, ports: Option<Ports>, deadline: Option<int>, rt: Runtime)
    requires RowsOk(t.rows, rt) && !Undoing(op.kind) && Ends(op, deadline) && CompleteTx(t, op, ports, deadline).Ok?
    requires t' == CompleteTx(t, op, ports, deadline).value.after && t.rows[op.publicId].token == op.token
    ensures Outcome(t, t', op)
  {
  }

  lemma StopCompletes(s0: State, s: State, op: Operation, rt: Runtime, calm: bool)
    requires During(s0, s, op, rt, calm) && op.kind.Stop? && Stopped(s.native, op.token)
    ensures CompleteTx(s.db, op, None, None).Ok? ==>
      s.(db := CompleteTx(s.db, op, None, None).value.after) == Settled(s, op)
  {
    if CompleteTx(s.db, op, None, None).Ok? {
      StopArrives(s, op, rt);
    }
  }

  lemma StartCompletes(s0: State, s: State, op: Operation, info: Observation, rt: Runtime, calm: bool)
    requires During(s0, s, op, rt, calm) && (op.kind.Start? || op.kind.Restart?) && Current(s.native, op.token, info)
    ensures var ports := Some(if info.Found? then info.info.ports else map[]);
      var deadline := if info.Found? && info.info.running then op.deadline else None;
      CompleteTx(s.db, op, ports, deadline).Ok? ==>
        s.(db := CompleteTx(s.db, op, ports, deadline).value.after) == Settled(s, op)
  {
    CurrentMeans(s.native, op.token, info);
    var ports := Some(if info.Found? then info.info.ports else map[]);
    var deadline := if info.Found? && info.info.running then op.deadline else None;
    if CompleteTx(s.db, op, ports, deadline).Ok? {
      StartArrives(s, op, rt);
    }
  }

  lemma CompleteStays(s: State, op: Operation, ports: Option<Ports>, deadline: Option<int>, rt: Runtime)
    requires Consistent(s.db, rt) && Known(s) && Holds(s, op) && CompleteTx(s.db, op, ports, deadline).Ok?
    ensures var s' := s.(db := CompleteTx(s.db, op, ports, deadline).value.after);
      OnlyAttempt(s, s', op.token) && Kept(s.db, s'.db) && op.id !in s'.db.ops
  {
    assert Touches(op, s.db.rows[op.publicId]);
    assert s.db.rows[op.publicId].token == op.token;
    OnlyIntent(s.db, op, rt);
    Still(s, s.(db := CompleteTx(s.db, op, ports, deadline).value.after), op.token);
    hide Known, Linked, RowsOk, OpsOk, Apart;
    var t := CompleteTx(s.db, op, ports, deadline).value.after;
    OthersRemain(s.db, t, op.id, op.publicId, op.token);
  }

  /******* What a recovery sees *******/

  /** One inspection for op: by native identity, or by exact name for an unbound creation. */
  ghost predicate Sees(s: State, op: Operation, info: Observation) {
    match info
    case Failed => true
    case Found(n, c) =>
      && n in s.native && s.native[n] == c
      && (n == op.nativeId || (op.kind.Create? && op.nativeId == NONE && c.name == op.nativeName))
    case Missing =>
      if op.nativeId != NONE then op.nativeId !in s.native
      else op.kind.Create? && forall n <- s.native :: s.native[n].name != op.nativeName
  }

  function Seen(info: Observation): Option<Id> {
    if info.Found? then Some(info.id) else None
  }

  /** The ownership checks of a recovery never fail on an intent of ours: what it sees is what the
      token labels. */
  lemma SightIsTrue(s: State, op: Operation, info: Observation, rt: Runtime)
    requires Inv(s, rt) && Holds(s, op) && !info.Failed? && Sees(s, op, info)
    ensures info.Found? ==> info.info.owner == op.token
    ensures At(s, op.token, Seen(info)) && Current(s.native, op.token, info)
    ensures (info.Found? ==> !info.info.running) ==> Stopped(s.native, op.token)
  {
    forall n | n in s.native ensures Agree(op, n, s.native[n]) {
    }
  }

  /** The same when a creation learns its native identity from a row. */
  lemma RowSightIsTrue(s: State, op: Operation, row: Sandbox, info: Observation, rt: Runtime)
    requires Inv(s, rt) && Holds(s, op) && !info.Failed?
    requires row.id in s.db.rows && s.db.rows[row.id] == row && row.token == op.token
    requires info.Found? ==> info.id == row.nativeId && info.id in s.native && s.native[info.id] == info.info
    requires info.Missing? ==> row.nativeId !in s.native
    ensures info.Found? ==> info.info.owner == op.token
    ensures At(s, op.token, Seen(info)) && Current(s.native, op.token, info)
  {
  }

  /** The inspection still describes the container of the attempt. */
  ghost predicate Current(native: Natives, token: Id, info: Observation) {
    match info
    case Failed => false
    case Found(n, c) => n in native && native[n] == c && c.owner == token
                        && (forall m <- native :: native[m].owner == token ==> m == n)
    case Missing => forall m <- native :: native[m].owner != token
  }

  lemma CurrentMeans(native: Natives, token: Id, info: Observation)
    requires Current(native, token, info)
    ensures RunningFor(native, token) <==> info.Found? && info.info.running
    ensures PortsFor(native, token) == if info.Found? then info.info.ports else map[]
  {
  }

  /** The identities that a stored intent names. */
  lemma NamesOf(s: State, op: Operation, rt: Runtime)
    requires Inv(s, rt) && Holds(s, op)
    ensures op.nativeId != NONE ==> Names(s.db, op)
    ensures !op.kind.Create? ==> op.publicId in s.db.rows && s.db.rows[op.publicId].nativeId == op.nativeId
    ensures RowOf(s.db, op.token).None? ==> forall id, n :: (id !in s.db.rows || id == op.publicId) ==> Names(s.db, op.(nativeId := n, publicId := id))
    ensures RowOf(s.db, op.token).Some? ==>
      var row := RowOf(s.db, op.token).value;
      && row.id in s.db.rows && s.db.rows[row.id] == row && row.token == op.token
      && (op.publicId == NONE || op.publicId == row.id)
      && Names(s.db, op.(nativeId := row.nativeId, publicId := row.id))
  {
    forall k | k in s.db.rows && Touches(op, s.db.rows[k]) ensures Bound(op, s.db.rows[k]) {
    }
  }

  /** A container of an attempt without a row is not owned by any row. */
  lemma NoOwner(s: State, op: Operation, n: Id, rt: Runtime)
    requires Inv(s, rt) && n in s.native && s.native[n].owner == op.token && RowOf(s.db, op.token).None?
    ensures OwnerOf(s.db, n).None?
  {
  }

  /******* What becomes of an attempt *******/

  /** Nothing durable is left of the attempt. */
  ghost predicate Gone(t: Tables, token: Id) {
    !HasRow(t, token) && !HasIntent(t, token)
  }

  ghost predicate HasDelete(t: Tables, token: Id) {
    exists o :: o in t.ops && t.ops[o].token == token && t.ops[o].kind.Delete?
  }

  /** The row of an attempt leaves only together with its intent, and what is gone stays gone. */
  ghost predicate Fate(t: Tables, t': Tables, token: Id) {
    && (HasRow(t, token) ==> HasRow(t', token) || Gone(t', token))
    && (Gone(t, token) ==> Gone(t', token))
  }

  /** Unless a deletion of the attempt was pending before, its row stays and none is pending afterwards. */
  ghost predicate Spared(t: Tables, t': Tables, token: Id) {
    !HasDelete(t, token) ==>
      && !HasDelete(t', token)
      && forall k <- t.rows :: t.rows[k].token == token ==>
           k in t'.rows && t'.rows[k].token == token && t'.rows[k].nativeId == t.rows[k].nativeId
  }

  /** A new intent has a new number. */
  ghost predicate NewOps(lo: Id, t: Tables, t': Tables) {
    forall o <- t'.ops :: o in t.ops || lo <= o
  }

  ghost predicate Moves(s: State, s': State, token: Id, deletes: bool) {
    && s.ledger.supply <= s'.ledger.supply && NewOps(s.ledger.supply, s.db, s'.db)
    && Fate(s.db, s'.db, token) && (deletes || Spared(s.db, s'.db, token))
  }

  lemma MovesTrans(s0: State, s1: State, s2: State, token: Id, a: bool, b: bool)
    requires Moves(s0, s1, token, a) && Moves(s1, s2, token, b)
    ensures Moves(s0, s2, token, a || b)
  {
    hide HasRow, HasIntent, HasDelete;
  }

  lemma MovesNot(s: State, s': State, token: Id)
    requires s'.db == s.db && s.ledger.supply <= s'.ledger.supply
    ensures Moves(s, s', token, false)
  {
  }

  /** The rest of an attempt, once its intent is pending. */
  lemma EndMoves(s: State, s': State, op: Operation, rt: Runtime, calm: bool)
    requires Holds(s, op) && (During(s, s', op, rt, calm) || After(s, s', op, rt, calm))
    ensures Moves(s, s', op.token, op.kind.Create?)
  {
    assert HasIntent(s.db, op.token);
    assert op.kind.Delete? ==> HasDelete(s.db, op.token);
    assert s.ledger.supply <= s'.ledger.supply;
    EndOps(s, s', op, rt, calm);
    if After(s, s', op, rt, calm) {
      AfterFate(s, s', op, rt, calm);
    } else {
      DuringFate(s, s', op, rt, calm);
    }
  }

  lemma EndOps(s: State, s': State, op: Operation, rt: Runtime, calm: bool)
    requires Holds(s, op) && (During(s, s', op, rt, calm) || After(s, s', op, rt, calm))
    ensures forall k <- s'.db.ops :: k in s.db.ops
  {
    hide Inv, Kept, Apart, Settled, Outcome;
    forall k | k in s'.db.ops && s'.db.ops[k].token != op.token ensures k in s.db.ops {
      OtherOpIs(s.db, s'.db, op.token, k);
    }
    if During(s, s', op, rt, calm) {
      OnlyIntent(s'.db, op, rt) by { InvParts(s', rt); }
    }
  }

  lemma DuringFate(s: State, s': State, op: Operation, rt: Runtime, calm: bool)
    requires During(s, s', op, rt, calm) && HasIntent(s.db, op.token) && (op.kind.Delete? ==> HasDelete(s.db, op.token))
    ensures Fate(s.db, s'.db, op.token) && Spared(s.db, s'.db, op.token)
  {
    OnlyIntent(s'.db, op, rt) by { InvParts(s', rt); }
  }

  lemma AfterFate(s: State, s': State, op: Operation, rt: Runtime, calm: bool)
    requires After(s, s', op, rt, calm) && HasIntent(s.db, op.token) && (op.kind.Delete? ==> HasDelete(s.db, op.token))
    ensures Fate(s.db, s'.db, op.token) && (op.kind.Create? || Spared(s.db, s'.db, op.token))
  {
    hide Inv, OnlyAttempt, Settled;
  }

  /** The sandbox is there and nothing of it is pending. */
  ghost predicate Lingers(t: Tables, token: Id) {
    HasRow(t, token) && !HasIntent(t, token)
  }

  /** Once a deletion has begun, its sandbox is pending or gone. */
  lemma DeletionEnds(s: State, s': State, op: Operation, rt: Runtime, calm: bool)
    requires op.kind.Delete? && (During(s, s', op, rt, calm) || After(s, s', op, rt, calm))
    ensures !Lingers(s'.db, op.token)
  {
    hide Inv, OnlyAttempt, Settled;
  }

  /******* Before and after an attempt *******/

  ghost predicate BeginsWell(s: State, native: Id, kind: Kind, deadline: Option<int>, newId: Id) {
    newId < s.ledger.supply && newId !in s.db.ops && !kind.Create?
    && ((kind.Start? || kind.Restart?) ==> deadline.Some?) && (kind.Stop? ==> deadline.None?)
  }

  /** The state after a mutation of the sandbox that owns native has begun. */
  lemma Begun(s: State, native: Id, kind: Kind, deadline: Option<int>, newId: Id, rt: Runtime)
    requires Inv(s, rt) && BeginsWell(s, native, kind, deadline, newId) && BeginTx(s.db, rt, native, kind, deadline, newId).Ok?
    ensures var c := BeginTx(s.db, rt, native, kind, deadline, newId).value;
      var t := s.(db := c.after);
      && Inv(t, rt) && t.db.rows == s.db.rows
      && Holds(t, c.value) && c.value.kind == kind && BoundToOwner(s, c.value, native)
      && OnlyAttempt(s, t, c.value.token)
      && c.value.token in s.ledger.issued
      && ((kind.Start? || kind.Restart?) ==> c.value.deadline == deadline && IntentOf(s.db, c.value.token).None?)
      && (kind.Stop? ==> c.value.deadline.None?)
  {
    var c := BeginTx(s.db, rt, native, kind, deadline, newId).value;
    BeginKeeps(s, rt, native, kind, deadline, newId);
    assert s.(db := c.after) == WithOp(s, c.value);
    BeginReplaces(s, native, kind, deadline, newId, rt);
    BeginStays(s, c.value, rt);
  }

  lemma BeginReplaces(s: State, native: Id, kind: Kind, deadline: Option<int>, newId: Id, rt: Runtime)
    requires OpsOk(s.db.ops, rt) && BeginsWell(s, native, kind, deadline, newId) && BeginTx(s.db, rt, native, kind, deadline, newId).Ok?
    ensures var op := BeginTx(s.db, rt, native, kind, deadline, newId).value.value;
      && (op.id in s.db.ops ==> s.db.ops[op.id].token == op.token)
      && ((kind.Start? || kind.Restart?) ==> op.deadline == deadline && IntentOf(s.db, op.token).None?)
      && (kind.Stop? ==> op.deadline.None?)
  {
  }

  /** A mutation of the sandbox that owns native has begun, or failed to begin. */
  lemma Begins(s: State, s': State, native: Id, kind: Kind, deadline: Option<int>, newId: Id, rt: Runtime,
               fault: Fault, r: Result<Operation>)
    requires Inv(s, rt) && BeginsWell(s, native, kind, deadline, newId)
    requires s' == s.(db := s'.db) && Transacted(s.db, BeginTx(s.db, rt, native, kind, deadline, newId), fault, s'.db, r)
    ensures Inv(s', rt) && s'.db.rows == s.db.rows
    ensures OwnerOf(s.db, native).Some? ==> OnlyAttempt(s, s', OwnerOf(s.db, native).value.token)
    ensures OwnerOf(s.db, native).None? ==> s' == s && r.Err? && (r.error.NotFound? || r.error.Store?)
    ensures OwnerOf(s.db, native).Some? ==>
      var token := OwnerOf(s.db, native).value.token;
      && (forall o <- s'.db.ops :: o in s.db.ops || o == newId)
      && (kind.Delete? || Spared(s.db, s'.db, token)) && (s'.db == s.db || HasIntent(s'.db, token))
    ensures r.Err? && OwnerOf(s.db, native).Some? ==> r.error.Pending? || r.error.Store?
    ensures r.Ok? ==>
      && Holds(s', r.value) && r.value.kind == kind && BoundToOwner(s, r.value, native)
      && r.value.token in s'.ledger.issued
      && ((kind.Start? || kind.Restart?) ==> r.value.deadline == deadline && IntentOf(s.db, r.value.token).None?)
      && (kind.Stop? ==> r.value.deadline.None?)
  {
    hide Inv, OnlyAttempt, EnvStep, Spared, HasIntent;
    EnvRefl(s, rt);
    SparedRefl(s.db);
    if OwnerOf(s.db, native).Some? {
      Unmoved(s, OwnerOf(s.db, native).value.token, rt);
    }
    if BeginTx(s.db, rt, native, kind, deadline, newId).Ok? {
      Begun(s, native, kind, deadline, newId, rt);
      var t := s.(db := BeginTx(s.db, rt, native, kind, deadline, newId).value.after);
      BeginMoves(s.db, rt, native, kind, deadline, newId) by { InvParts(s, rt); }
      assert s' == s || s' == t;
    } else {
      assert s' == s;
    }
  }

  lemma SparedRefl(t: Tables)
    ensures forall token :: Spared(t, t, token)
  {
  }

  /** Beginning anything but a deletion asks for no deletion. */
  lemma BeginMoves(t: Tables, rt: Runtime, native: Id, kind: Kind, deadline: Option<int>, newId: Id)
    requires OpsOk(t.ops, rt) && !kind.Create? && BeginTx(t, rt, native, kind, deadline, newId).Ok? && OwnerOf(t, native).Some?
    ensures var t', token := BeginTx(t, rt, native, kind, deadline, newId).value.after, OwnerOf(t, native).value.token;
      && (forall o <- t'.ops :: o in t.ops || o == newId)
      && (kind.Delete? || Spared(t, t', token)) && HasIntent(t', token)
  {
    var c := BeginTx(t, rt, native, kind, deadline, newId).value;
    assert c.value.id in c.after.ops && c.after.ops[c.value.id].token == OwnerOf(t, native).value.token;
    hide OwnerOf, IntentOf;
  }

  lemma Unmoved(s: State, token: Id, rt: Runtime)
    requires Inv(s, rt)
    ensures OnlyAttempt(s, s, token)
  {
  }

  lemma BeginStays(s: State, op: Operation, rt: Runtime)
    requires Known(s) && (op.id in s.db.ops ==> s.db.ops[op.id].token == op.token)
    ensures OnlyAttempt(s, WithOp(s, op), op.token)
  {
  }

  /** Only the sandbox that owned native was touched, nothing if there was none; and it was deleted only if somebody
      asked for that. */
  ghost predicate OnlyOwner(s: State, s': State, native: Id, deletes: bool) {
    match OwnerOf(s.db, native)
    case None => EnvStep(s, s')
    case Some(row) => OnlyAttempt(s, s', row.token) && Kept(s.db, s'.db) && Moves(s, s', row.token, deletes)
  }

  lemma EnvTrans(s0: State, s1: State, s2: State)
    requires Known(s0) && EnvStep(s0, s1) && EnvStep(s1, s2)
    ensures EnvStep(s0, s2)
  {
  }

  lemma EnvIsOwner(s: State, native: Id, rt: Runtime)
    requires Inv(s, rt)
    ensures forall s' :: EnvStep(s, s') ==> OnlyOwner(s, s', native, false)
    ensures OnlyOwner(s, s, native, false)
  {
    hide OnlyAttempt;
    EnvRefl(s, rt);
    forall s' | EnvStep(s, s') ensures OnlyOwner(s, s', native, false) {
      if OwnerOf(s.db, native).Some? {
        OwnerToken(s, native, rt);
        PassStays(s, s', OwnerOf(s.db, native).value.token, None);
        MovesNot(s, s', OwnerOf(s.db, native).value.token);
        KeptSame(s.db, s'.db);
      }
    }
  }

  /** The environment acts before or after. */
  lemma OwnerPasses(s0: State, s1: State, s2: State, native: Id, deletes: bool, rt: Runtime)
    requires Inv(s0, rt) && Inv(s1, rt)
    requires (OnlyOwner(s0, s1, native, deletes) && EnvStep(s1, s2)) || (EnvStep(s0, s1) && OnlyOwner(s1, s2, native, deletes))
    ensures OnlyOwner(s0, s2, native, deletes)
  {
    match OwnerOf(s0.db, native)
    case None => EnvTrans(s0, s1, s2);
    case Some(row) =>
      assert row.token in s0.ledger.issued;
      hide Inv, OnlyAttempt, Kept, Moves;
      InvParts(s0, rt);
      InvParts(s1, rt);
      if EnvStep(s0, s1) {
        EnvMoves(s0, s1, row.token);
      }
      if EnvStep(s1, s2) {
        assert row.token in s1.ledger.issued by { EnvOrAttempt(s0, s1, row.token); }
        EnvMoves(s1, s2, row.token);
      }
      OnlyAttemptTrans(s0, s1, s2, row.token);
      KeptTrans(s0.db, s1.db, s2.db);
      if OnlyOwner(s0, s1, native, deletes) && EnvStep(s1, s2) {
        MovesTrans(s0, s1, s2, row.token, deletes, false);
      } else {
        MovesTrans(s0, s1, s2, row.token, false, deletes);
      }
  }

  lemma EnvOrAttempt(s: State, s': State, token: Id)
    requires EnvStep(s, s') || OnlyAttempt(s, s', token)
    ensures token in s.ledger.issued ==> token in s'.ledger.issued
  {
  }

  lemma EnvMoves(s: State, s': State, token: Id)
    requires Known(s) && EnvStep(s, s') && token in s.ledger.issued
    ensures OnlyAttempt(s, s', token) && Kept(s.db, s'.db) && Moves(s, s', token, false) && s'.db == s.db
  {
    PassStays(s, s', token, None);
    MovesNot(s, s', token);
  }

  lemma EnvRefl(s: State, rt: Runtime)
    requires Inv(s, rt)
    ensures EnvStep(s, s)
  {
  }

  /** The container of an intent is where the intent says. */
  lemma AtNative(s: State, op: Operation, rt: Runtime)
    requires Inv(s, rt) && Holds(s, op) && !op.kind.Create?
    ensures At(s, op.token, Some(op.nativeId))
  {
  }

  lemma OwnerToken(s: State, native: Id, rt: Runtime)
    requires Inv(s, rt) && OwnerOf(s.db, native).Some?
    ensures var row := OwnerOf(s.db, native).value;
      row.token in s.ledger.issued && row.id in s.db.rows && s.db.rows[row.id] == row && row.nativeId == native && row.runtime == rt
  {
  }

  /** What the caller of a mutation learns when its intent was recorded, or was not. */
  ghost predicate BegunFor(s0: State, s: State, native: Id, kind: Kind, deadline: Option<int>, r: Result<Operation>) {
    match OwnerOf(s0.db, native)
    case None => r.Err? && EnvStep(s0, s) && (r.error.NotFound? || r.error.Store?)
    case Some(row) =>
      && OnlyAttempt(s0, s, row.token) && s.db.rows == s0.db.rows && Moves(s0, s, row.token, kind.Delete?)
      && (s.db == s0.db || HasIntent(s.db, row.token))
      && row.id in s.db.rows && s.db.rows[row.id] == row && row.nativeId == native && row.token in s.ledger.issued
      && (Stopped(s0.native, row.token) ==> Stopped(s.native, row.token))
      && (r.Ok? ==>
            var op := r.value;
            && Holds(s, op) && op.kind == kind && op.token == row.token && op.nativeId == native && op.publicId == row.id
            && ((kind.Start? || kind.Restart?) ==> op.deadline == deadline && IntentOf(s0.db, row.token).None?)
            && (kind.Stop? ==> op.deadline.None?))
      && (r.Err? ==> r.error.Pending? || r.error.Store?)
  }

  lemma BegunMeans(s0: State, s: State, native: Id, kind: Kind, deadline: Option<int>, r: Result<Operation>)
    requires BegunFor(s0, s, native, kind, deadline, r)
    ensures OnlyOwner(s0, s, native, kind.Delete?) && s.db.rows == s0.db.rows
    ensures OwnerOf(s0.db, native).None? ==> r.Err? && s.db == s0.db && (r.error.NotFound? || r.error.Store?)
    ensures OwnerOf(s0.db, native).Some? ==>
      var row := OwnerOf(s0.db, native).value;
      && row.id in s.db.rows && s.db.rows[row.id] == row && row.nativeId == native && row.token in s.ledger.issued
      && (Stopped(s0.native, row.token) ==> Stopped(s.native, row.token))
      && (r.Ok? ==>
            var op := r.value;
            && Holds(s, op) && op.kind == kind && op.token == row.token && op.nativeId == native && op.publicId == row.id
            && ((kind.Start? || kind.Restart?) ==> op.deadline == deadline && IntentOf(s0.db, row.token).None?)
            && (kind.Stop? ==> op.deadline.None?))
      && (r.Err? ==> r.error.Pending? || r.error.Store?)
      && (s.db == s0.db || HasIntent(s.db, row.token))
  {
    hide OnlyAttempt, Moves, EnvStep;
    assert s.db.rows == s0.db.rows by {
      if OwnerOf(s0.db, native).None? {
        EnvSame(s0, s);
      }
    }
    KeptSame(s0.db, s.db);
    if EnvStep(s0, s) {
      EnvSame(s0, s);
    }
  }

  lemma EnvSame(s: State, s': State)
    requires EnvStep(s, s')
    ensures s'.db == s.db
  {
  }

  lemma BeginsFor(s0: State, s: State, s': State, native: Id, kind: Kind, deadline: Option<int>, newId: Id, rt: Runtime,
                  fault: Fault, r: Result<Operation>)
    requires Inv(s0, rt) && EnvStep(s0, s) && Inv(s, rt) && BeginsWell(s, native, kind, deadline, newId) && s0.ledger.supply <= newId
    requires s' == s.(db := s'.db) && Transacted(s.db, BeginTx(s.db, rt, native, kind, deadline, newId), fault, s'.db, r)
    ensures Inv(s', rt) && BegunFor(s0, s', native, kind, deadline, r)
  {
    hide Inv, OnlyAttempt, Apart, Stopped, Holds, BeginTx, Transacted, OnlyOwner, Settles, Foreign, Spared, HasRow, HasIntent;
    hide OwnerOf, IntentOf, Fate;
    Begins(s, s', native, kind, deadline, newId, rt, fault, r);
    if OwnerOf(s0.db, native).Some? {
      OwnerToken(s0, native, rt);
      var token := OwnerOf(s0.db, native).value.token;
      PassStays(s0, s, token, None) by { InvParts(s0, rt); }
      OnlyAttemptTrans(s0, s, s', token);
      RowFate(s0.db, s'.db, OwnerOf(s0.db, native).value);
    }
  }

  lemma RowFate(t: Tables, t': Tables, row: Sandbox)
    requires t'.rows == t.rows && row.id in t.rows && t.rows[row.id] == row
    ensures Fate(t, t', row.token)
  {
  }

  /** From the begin of a mutation to the end of its attempt. */
  lemma EndsFor(s0: State, s1: State, s: State, s': State, native: Id, kind: Kind, deadline: Option<int>, op: Operation, rt: Runtime, calm: bool)
    requires BegunFor(s0, s1, native, kind, deadline, Ok(op)) && !kind.Create?
    requires During(s1, s, op, rt, calm) || After(s1, s, op, rt, calm)
    requires EnvStep(s, s') && op.token in s.ledger.issued
    ensures OnlyAttempt(s0, s', op.token) && Kept(s0.db, s'.db) && OnlyOwner(s0, s', native, kind.Delete?)
    ensures After(s1, s, op, rt, calm) ==> op.id !in s'.db.ops && IntentOf(s'.db, op.token).None?
    ensures Stopped(s.native, op.token) ==> Stopped(s'.native, op.token)
    ensures Absent(s.native, op.token) ==> Absent(s'.native, op.token)
  {
    hide Inv, Settled, OnlyAttempt, Stopped, Absent, Moves, Outcome;
    EndMoves(s1, s, op, rt, calm);
    PassStays(s, s', op.token, None) by { InvParts(s, rt); }
    OnlyAttemptTrans(s0, s1, s, op.token);
    OnlyAttemptTrans(s0, s, s', op.token);
    MovesNot(s, s', op.token) by { EnvOnward(s, s'); hide *; }
    MovesTrans(s0, s1, s, op.token, kind.Delete?, false);
    MovesTrans(s0, s, s', op.token, kind.Delete?, false);
  }

  lemma TokenStays(s0: State, s: State, op: Operation, rt: Runtime, calm: bool)
    requires During(s0, s, op, rt, calm) || After(s0, s, op, rt, calm)
    requires op.token in s0.ledger.issued
    ensures op.token in s.ledger.issued
  {
  }

  /** A start or restart runs the container under the deadline of its intent. */
  lemma Launching(s0: State, s: State, s': State, op: Operation, rt: Runtime, n: Id)
    requires During(s0, s, op, rt, false) && Starting(op.kind) && op.deadline.Some? && At(s, op.token, Some(n))
    requires s' == s.(native := s'.native)
    requires s'.native == s.native || (n in s.native && s'.native == s.native[n := s.native[n].(running := true)])
    ensures During(s0, s', op, rt, false) && At(s', op.token, Some(n)) && Inv(s', rt)
  {
    hide Inv;
    if s' != s {
      InvParts(s, rt);
      assert HasDeadline(s.db, op.token);
      NativeStartKeeps(s, n, rt);
      LaunchStays(s, s', op.token, n);
      OnlyAttemptTrans(s0, s, s', op.token);
    }
  }

  lemma LaunchStays(s: State, s': State, token: Id, n: Id)
    requires Known(s) && At(s, token, Some(n)) && n in s.native
    requires s' == s.(native := s.native[n := s.native[n].(running := true)])
    ensures OnlyAttempt(s, s', token) && At(s', token, Some(n))
  {
  }

  /** The deadline of an idle sandbox is renewed. */
  lemma Renewing(s: State, s': State, native: Id, deadline: Option<int>, rt: Runtime, fault: Fault, r: Result<()>)
    requires Inv(s, rt) && deadline.Some?
    requires s' == s.(db := s'.db) && Transacted(s.db, SetDeadlineTx(s.db, native, rt, deadline), fault, s'.db, r)
    ensures Inv(s', rt) && OnlyOwner(s, s', native, false) && s'.db.ops == s.db.ops
    ensures fault.Clean? && OwnerOf(s.db, native).Some? && IntentOf(s.db, OwnerOf(s.db, native).value.token).None? ==> r.Ok?
    ensures r.Ok? ==>
      && OwnerOf(s.db, native).Some?
      && var row := OwnerOf(s.db, native).value;
      && IntentOf(s.db, row.token).None?
      && row.id in s'.db.rows && s'.db.rows[row.id] == row.(expiresAt := deadline)
  {
    hide Inv, OnlyAttempt, EnvStep;
    EnvRefl(s, rt);
    if OwnerOf(s.db, native).Some? {
      var row := OwnerOf(s.db, native).value;
      OwnerToken(s, native, rt);
      Unmoved(s, row.token, rt);
      if SetDeadlineTx(s.db, native, rt, deadline).Ok? {
        SetDeadlineKeeps(s, native, deadline, rt);
        var t := s.(db := SetDeadlineTx(s.db, native, rt, deadline).value.after);
        RowStays(s, row.(expiresAt := deadline, runtime := rt), rt);
        assert t == WithRow(s, row.(expiresAt := deadline, runtime := rt));
        GentleMoves(s, t, row.token) by { assert t.db.rows.Keys == s.db.rows.Keys; }
        MovesNot(s, s, row.token);
        hide Moves;
        assert s' == s || s' == t;
      } else {
        MovesNot(s, s, row.token);
        assert s' == s;
      }
    } else {
      assert s' == s;
    }
  }

  /** Rows keep their identities, and no intent is added. */
  ghost predicate Gentle(t: Tables, t': Tables) {
    && t'.rows.Keys == t.rows.Keys && Kept(t, t')
    && forall o <- t'.ops :: o in t.ops && t'.ops[o] == t.ops[o]
  }

  lemma GentleMoves(s: State, s': State, token: Id)
    requires Gentle(s.db, s'.db) && s.ledger.supply <= s'.ledger.supply
    ensures Moves(s, s', token, false)
  {
    var t, t' := s.db, s'.db;
    if k :| k in t.rows && t.rows[k].token == token {
      assert k in t'.rows && t'.rows[k].token == token;
    }
  }

  lemma RowStays(s: State, row: Sandbox, rt: Runtime)
    requires Inv(s, rt) && row.id in s.db.rows && s.db.rows[row.id].token == row.token
    ensures OnlyAttempt(s, WithRow(s, row), row.token)
  {
    Still(s, WithRow(s, row), row.token);
    hide Inv, Apart;
    OthersRemain(s.db, WithRow(s, row).db, NONE, row.id, row.token);
  }

  /** No intent of the sandbox that owns native is pending. */
  ghost predicate Idle(s: State, native: Id) {
    OwnerOf(s.db, native).Some? ==> IntentOf(s.db, OwnerOf(s.db, native).value.token).None?
  }

  /** A pending intent other than a creation that names native belongs to its owner. */
  lemma PendingOwner(s: State, native: Id, op: Operation, rt: Runtime)
    requires Inv(s, rt) && Holds(s, op) && !op.kind.Create?
    requires OwnerOf(s.db, native).Some? ==> IntentOf(s.db, OwnerOf(s.db, native).value.token) == Some(op)
    requires OwnerOf(s.db, native).None? ==> op.nativeId == native
    ensures OwnerOf(s.db, native).Some? && OwnerOf(s.db, native).value.token == op.token && op.nativeId == native
  {
    var row := s.db.rows[op.publicId];
    assert Bound(op, row);
    if OwnerOf(s.db, native).None? {
      assert Owns(row, native);
    } else {
      OwnerToken(s, native, rt);
      IntentFacts(s, rt, OwnerOf(s.db, native).value, op);
    }
  }

  /** What became of the owner of native after a recovery of its intent. */
  ghost predicate OwnerThen(s: State, s': State, native: Id, op: Operation) {
    && OnlyOwner(s, s', native, false)
    && (OwnerOf(s'.db, native).Some? ==>
          var row := OwnerOf(s'.db, native).value;
          row.token == op.token && (op.publicId in s'.db.rows && s'.db.rows[op.publicId].token == op.token ==> row == s'.db.rows[op.publicId]))
  }

  lemma ReconciledOwner(s: State, s': State, native: Id, op: Operation, rt: Runtime, calm: bool)
    requires Inv(s, rt) && Holds(s, op) && !op.kind.Create?
    requires OwnerOf(s.db, native).Some? && OwnerOf(s.db, native).value.token == op.token
    requires During(s, s', op, rt, calm) || After(s, s', op, rt, calm)
    ensures OwnerThen(s, s', native, op)
    ensures After(s, s', op, rt, calm) ==> Idle(s', native)
  {
    hide During, After, OnlyAttempt, Kept, Inv, Holds, Moves;
    EndMoves(s, s', op, rt, calm);
    EndsMeans(s, s', op, rt, calm);
    OwnerToken(s, native, rt);
    if OwnerOf(s'.db, native).Some? {
      StillOwner(s, s', native, op, rt);
    }
  }

  lemma EndsMeans(s: State, s': State, op: Operation, rt: Runtime, calm: bool)
    requires During(s, s', op, rt, calm) || After(s, s', op, rt, calm)
    ensures Inv(s', rt) && OnlyAttempt(s, s', op.token) && Kept(s.db, s'.db)
    ensures After(s, s', op, rt, calm) ==> forall o <- s'.db.ops :: s'.db.ops[o].token != op.token
  {
  }

  lemma StillOwner(s: State, s': State, native: Id, op: Operation, rt: Runtime)
    requires Inv(s, rt) && Inv(s', rt) && OnlyAttempt(s, s', op.token)
    requires OwnerOf(s.db, native).Some? && OwnerOf(s.db, native).value.token == op.token && OwnerOf(s'.db, native).Some?
    ensures var row := OwnerOf(s'.db, native).value;
      row.token == op.token && (op.publicId in s'.db.rows && s'.db.rows[op.publicId].token == op.token ==> row == s'.db.rows[op.publicId])
  {
    assert RowsOk(s.db.rows, rt) && RowsOk(s'.db.rows, rt);
    hide Inv, Apart, OwnerOf, RowsOk;
    SameOwner(s.db, s'.db, native, op.token, rt);
    if op.publicId in s'.db.rows && s'.db.rows[op.publicId].token == op.token {
      SameRow(s'.db, rt, native, op.publicId);
    }
  }

  lemma OtherRowIs(t: Tables, t': Tables, token: Id, k: Id)
    requires OtherRows(t, token) == OtherRows(t', token) && k in t'.rows && t'.rows[k].token != token
    ensures k in t.rows && t.rows[k] == t'.rows[k]
  {
    assert k in OtherRows(t', token);
    assert k in OtherRows(t, token);
  }

  lemma SameOwner(t: Tables, t': Tables, native: Id, token: Id, rt: Runtime)
    requires RowsOk(t.rows, rt) && RowsOk(t'.rows, rt) && OtherRows(t, token) == OtherRows(t', token)
    requires OwnerOf(t, native).Some? && OwnerOf(t, native).value.token == token && OwnerOf(t', native).Some?
    ensures OwnerOf(t', native).value.token == token
  {
    var k :| k in t.rows && t.rows[k] == OwnerOf(t, native).value && Owns(t.rows[k], native);
    var k' :| k' in t'.rows && t'.rows[k'] == OwnerOf(t', native).value && Owns(t'.rows[k'], native);
    if t'.rows[k'].token != token {
      OtherRowIs(t, t', token, k');
    }
  }

  lemma SameRow(t: Tables, rt: Runtime, native: Id, k: Id)
    requires RowsOk(t.rows, rt) && OwnerOf(t, native).Some? && k in t.rows && t.rows[k].token == OwnerOf(t, native).value.token
    ensures OwnerOf(t, native).value == t.rows[k]
  {
  }

  lemma NothingPending(s: State, native: Id)
    requires OwnerOf(s.db, native).Some? ==> IntentOf(s.db, OwnerOf(s.db, native).value.token).None?
    ensures Idle(s, native)
  {
  }

  lemma IdleMeans(s: State, native: Id)
    requires OwnerOf(s.db, native).Some?
    ensures Idle(s, native) <==> IntentOf(s.db, OwnerOf(s.db, native).value.token).None?
  {
  }

  lemma OwnerHasRow(s: State, native: Id, token: Id, rt: Runtime)
    requires Inv(s, rt) && OwnerOf(s.db, native).Some? && OwnerOf(s.db, native).value.token == token
    ensures RowOf(s.db, token).Some?
  {
  }

  /** A managed sandbox without an intent and without a deadline does not run. */
  lemma IdleIsStopped(s: State, native: Id, rt: Runtime)
    requires Inv(s, rt) && Idle(s, native) && OwnerOf(s.db, native).Some? && OwnerOf(s.db, native).value.expiresAt.None?
    ensures Stopped(s.native, OwnerOf(s.db, native).value.token)
  {
    OwnerToken(s, native, rt);
    var row := OwnerOf(s.db, native).value;
    forall r | r in s.db.rows && s.db.rows[r].token == row.token ensures s.db.rows[r] == row {
      SameRow(s.db, rt, native, r);
    }
  }

  lemma OwnerNow(s: State, row: Sandbox, native: Id, rt: Runtime)
    requires Inv(s, rt) && row.id in s.db.rows && s.db.rows[row.id] == row && row.nativeId == native
    ensures OwnerOf(s.db, native) == Some(row)
  {
  }

  lemma OwnerTrans(s0: State, s1: State, s2: State, native: Id, a: bool, b: bool, rt: Runtime)
    requires Inv(s0, rt) && Inv(s1, rt) && OnlyOwner(s0, s1, native, a) && OnlyOwner(s1, s2, native, b)
    ensures OnlyOwner(s0, s2, native, a || b)
  {
    hide Inv;
    match OwnerOf(s0.db, native)
    case None => EnvTrans(s0, s1, s2) by { InvParts(s0, rt); }
    case Some(row) =>
      OwnerToken(s0, native, rt);
      InvParts(s1, rt);
      if OwnerOf(s1.db, native).Some? {
        SameOwner(s0.db, s1.db, native, row.token, rt) by { InvParts(s0, rt); }
      } else {
        EnvMoves(s1, s2, row.token);
      }
      hide OnlyAttempt, Kept, Moves;
      OnlyAttemptTrans(s0, s1, s2, row.token);
      KeptTrans(s0.db, s1.db, s2.db);
      if OwnerOf(s1.db, native).Some? {
        MovesTrans(s0, s1, s2, row.token, a, b);
      } else {
        MovesTrans(s0, s1, s2, row.token, a, false);
        MovesMore(s0, s2, row.token, a, b);
      }
  }

  lemma OwnerMore(s: State, s': State, native: Id)
    requires OnlyOwner(s, s', native, false)
    ensures OnlyOwner(s, s', native, true)
  {
  }

  lemma MovesMore(s: State, s': State, token: Id, a: bool, b: bool)
    requires Moves(s, s', token, a)
    ensures Moves(s, s', token, a || b)
  {
  }

  /******* Several attempts in a row *******/

  lemma KeptRefl(t: Tables)
    ensures Kept(t, t)
  {
  }

  lemma KeptTrans(t0: Tables, t1: Tables, t2: Tables)
    requires Kept(t0, t1) && Kept(t1, t2)
    ensures Kept(t0, t2)
  {
  }

  lemma EnvChain(s0: State, s1: State, s2: State, rt: Runtime)
    requires Inv(s0, rt) && EnvStep(s0, s1) && EnvStep(s1, s2)
    ensures EnvStep(s0, s2) && s2.db == s1.db
  {
    EnvTrans(s0, s1, s2);
  }

  lemma OwnerKeeps(s: State, s': State, native: Id, deletes: bool)
    requires OnlyOwner(s, s', native, deletes)
    ensures Kept(s.db, s'.db)
  {
  }

  /** The identities of a row below lo stay together as long as the row is there, and no number of an intent below
      lo is given out again. */
  ghost predicate Lasting(lo: Id, t: Tables, t': Tables) {
    && (forall k <- t'.rows :: k < lo || t'.rows[k].nativeId < lo || t'.rows[k].token < lo ==>
          k in t.rows && t.rows[k].nativeId == t'.rows[k].nativeId && t.rows[k].token == t'.rows[k].token)
    && NewOps(lo, t, t')
  }

  lemma LastingTrans(lo: Id, t0: Tables, t1: Tables, t2: Tables)
    requires Lasting(lo, t0, t1) && Lasting(lo, t1, t2)
    ensures Lasting(lo, t0, t2)
  {
  }

  lemma LastingSame(lo: Id, t: Tables, t': Tables)
    requires t'.rows == t.rows && NewOps(lo, t, t')
    ensures Lasting(lo, t, t')
  {
  }

  lemma LastingLess(lo: Id, t: Tables, t': Tables, k: Id)
    requires (t'.rows == t.rows || t'.rows == t.rows - {k}) && NewOps(lo, t, t')
    ensures Lasting(lo, t, t')
  {
  }

  lemma LastingRow(lo: Id, t: Tables, t': Tables, row: Sandbox)
    requires t'.rows == t.rows[row.id := row] && NewOps(lo, t, t')
    requires lo <= row.nativeId && lo <= row.id && lo <= row.token
    ensures Lasting(lo, t, t')
  {
  }

  /** What no run takes back. */
  ghost predicate Onward(s: State, s': State) {
    && s.ledger.supply <= s'.ledger.supply && s.ledger.issued <= s'.ledger.issued && s.ledger.adopted <= s'.ledger.adopted
    && s.ledger.awaiting <= s'.ledger.awaiting
    && (forall t <- s'.ledger.abandoned :: t in s.ledger.abandoned || s.ledger.supply <= t)
    && Lasting(s.ledger.supply, s.db, s'.db)
    && (forall t <- s.ledger.issued :: Fate(s.db, s'.db, t))
  }

  lemma OnwardTrans(s0: State, s1: State, s2: State)
    requires Onward(s0, s1) && Onward(s1, s2)
    ensures Onward(s0, s2)
  {
    hide HasRow, HasIntent;
  }

  lemma OnwardRefl(s: State)
    ensures Onward(s, s)
  {
  }

  /** Other attempts keep their rows and their intents. */
  lemma OthersFate(s: State, s': State, token: Id, other: Id)
    requires OnlyAttempt(s, s', token) && other != token
    ensures Fate(s.db, s'.db, other) && (HasDelete(s'.db, other) ==> HasDelete(s.db, other))
  {
    hide Apart;
    var t, t' := s.db, s'.db;
    if k :| k in t.rows && t.rows[k].token == other {
      OtherRowIs(t', t, token, k);
    }
    if o :| o in t.ops && t.ops[o].token == other {
      OtherOpIs(t', t, token, o);
    }
    if k :| k in t'.rows && t'.rows[k].token == other {
      OtherRowIs(t, t', token, k);
    }
    forall o | o in t'.ops && t'.ops[o].token == other ensures o in t.ops && t.ops[o] == t'.ops[o] {
      OtherOpIs(t, t', token, o);
    }
  }

  lemma AttemptOnward(s: State, s': State, token: Id)
    requires OnlyAttempt(s, s', token)
    requires Lasting(s.ledger.supply, s.db, s'.db) || (Kept(s.db, s'.db) && NewOps(s.ledger.supply, s.db, s'.db))
    requires token in s.ledger.issued ==> Fate(s.db, s'.db, token)
    ensures Onward(s, s')
  {
    hide Fate;
    forall t | t in s.ledger.issued ensures Fate(s.db, s'.db, t) {
      if t != token {
        OthersFate(s, s', token, t);
      }
    }
  }

  /** An attempt that was begun since s. */
  lemma NewOnward(s: State, s': State, token: Id, rt: Runtime)
    requires Inv(s, rt) && OnlyAttempt(s, s', token) && Lasting(s.ledger.supply, s.db, s'.db) && s.ledger.supply <= token
    ensures Onward(s, s') && Spares(s, s', {})
  {
    assert token !in s.ledger.issued by { InvParts(s, rt); hide Inv; }
    assert s.ledger.adopted <= s.ledger.issued by { InvParts(s, rt); }
    hide Inv;
    AttemptOnward(s, s', token);
    OtherSpares(s, s', token, {});
  }

  lemma EnvOnward(s: State, s': State)
    requires EnvStep(s, s')
    ensures Onward(s, s') && Spares(s, s', {}) && s.ledger.supply <= s'.ledger.supply
  {
  }

  lemma OwnerOnward(s: State, s': State, native: Id, deletes: bool)
    requires OnlyOwner(s, s', native, deletes)
    ensures Onward(s, s')
  {
    match OwnerOf(s.db, native)
    case None => EnvOnward(s, s');
    case Some(row) =>
      hide Fate, OnlyAttempt, Kept, Spared, Lasting, Onward;
      AttemptOnward(s, s', row.token);
  }

  /******* What was adopted stays *******/

  /** The rows of adopted attempts stay, except those whose deletion was already pending and those that own a native
      identity in except; and no deletion of one that stays has become pending. */
  ghost predicate Spares(s: State, s': State, except: set<Id>) {
    && s.ledger.adopted <= s'.ledger.adopted
    && forall k <- s.db.rows ::
         s.db.rows[k].token in s.ledger.adopted && !HasDelete(s.db, s.db.rows[k].token) && s.db.rows[k].nativeId !in except ==>
           Stays(s.db.rows[k], s'.db, k)
  }

  ghost predicate Stays(row: Sandbox, t: Tables, k: Id) {
    k in t.rows && t.rows[k].token == row.token && t.rows[k].nativeId == row.nativeId && !HasDelete(t, row.token)
  }

  lemma SparesTrans(s0: State, s1: State, s2: State, a: set<Id>, b: set<Id>)
    requires Spares(s0, s1, a) && Spares(s1, s2, b)
    ensures Spares(s0, s2, a + b)
  {
    hide HasDelete;
  }

  lemma SparesStep(s0: State, s1: State, s2: State)
    requires Spares(s0, s1, {}) && Spares(s1, s2, {})
    ensures Spares(s0, s2, {})
  {
    SparesTrans(s0, s1, s2, {}, {});
    var none: set<Id> := {};
    assert none + none == none;
  }

  lemma SparesRefl(s: State)
    ensures Spares(s, s, {})
  {
  }

  /** The attempt itself is not adopted yet, or its row stays as well. */
  lemma OtherSpares(s: State, s': State, token: Id, except: set<Id>)
    requires OnlyAttempt(s, s', token)
    requires token in s.ledger.adopted ==>
      || Spared(s.db, s'.db, token)
      || forall k <- s.db.rows :: s.db.rows[k].token == token ==> s.db.rows[k].nativeId in except
    ensures Spares(s, s', except)
  {
    hide Apart;
    forall k | k in s.db.rows && s.db.rows[k].token != token && !HasDelete(s.db, s.db.rows[k].token)
      ensures Stays(s.db.rows[k], s'.db, k)
    {
      OtherRowIs(s'.db, s.db, token, k);
      OthersFate(s, s', token, s.db.rows[k].token);
    }
    hide OnlyAttempt, HasDelete;
  }

  lemma OwnerSpares(s: State, s': State, native: Id, deletes: bool, rt: Runtime)
    requires Inv(s, rt) && OnlyOwner(s, s', native, deletes)
    ensures Spares(s, s', if deletes then {native} else {})
  {
    match OwnerOf(s.db, native)
    case None => EnvOnward(s, s');
    case Some(row) =>
      OwnerToken(s, native, rt);
      forall k | k in s.db.rows && s.db.rows[k].token == row.token ensures s.db.rows[k].nativeId == native {
        SameRow(s.db, rt, native, k) by { InvParts(s, rt); }
      }
      hide Inv, OnlyAttempt, Kept, Spared;
      OtherSpares(s, s', row.token, if deletes then {native} else {});
  }

  /** Only the contents of rows change. */
  lemma GentleOnward(s: State, s': State, rt: Runtime)
    requires Gentle(s.db, s'.db) && s'.ledger == s.ledger
    ensures Onward(s, s') && Spares(s, s', {})
  {
    GentleSpares(s, s');
    hide Spares;
    forall t | t in s.ledger.issued ensures Fate(s.db, s'.db, t) {
      GentleMoves(s, s', t);
    }
    hide Fate, Moves;
  }

  lemma GentleSpares(s: State, s': State)
    requires Gentle(s.db, s'.db) && s.ledger.adopted <= s'.ledger.adopted
    ensures Spares(s, s', {})
  {
  }

  lemma StoredIsHeld(s: State, id: Id, rt: Runtime)
    requires Inv(s, rt) && id in s.db.ops
    ensures Holds(s, s.db.ops[id]) && s.db.ops[id].id == id
  {
  }

  lemma StoredIsShaped(s: State, op: Operation, rt: Runtime)
    requires Inv(s, rt) && Holds(s, op)
    ensures WellShaped(op)
  {
  }

  lemma AttemptEnds(s: State, s': State, op: Operation, rt: Runtime, calm: bool)
    requires Inv(s, rt) && Holds(s, op) && (During(s, s', op, rt, calm) || After(s, s', op, rt, calm))
    ensures OnlyAttempt(s, s', op.token) && Kept(s.db, s'.db) && Onward(s, s') && Spares(s, s', {})
    ensures After(s, s', op, rt, calm) ==> op.id !in s'.db.ops
    ensures forall k <- s'.db.ops :: k in s.db.ops
  {
    assert op.kind.Create? ==> op.token !in s.ledger.adopted by { InvParts(s, rt); }
    hide Inv;
    EndMoves(s, s', op, rt, calm);
    EndOps(s, s', op, rt, calm);
    EndsMeans(s, s', op, rt, calm);
    hide OnlyAttempt, Kept, Settled, Outcome, Onward, Spares, Fate, Spared;
    AttemptOnward(s, s', op.token);
    OtherSpares(s, s', op.token, {});
  }

  lemma AfterRows(s: State, s': State, op: Operation, rt: Runtime, calm: bool)
    requires After(s, s', op, rt, calm)
    ensures Undoing(op.kind) ==> forall k <- s'.db.rows :: s'.db.rows[k].token != op.token
  {
    hide Inv, OnlyAttempt, Kept, Settled;
  }

  /** Recovery of one intent leaves the others pending. */
  lemma OtherHolds(s: State, s': State, op: Operation, other: Operation, rt: Runtime)
    requires Inv(s, rt) && Holds(s, op) && Holds(s, other) && other.id != op.id && OnlyAttempt(s, s', op.token)
    ensures Holds(s', other)
  {
    assert !Clash(op, other);
    assert other.id in OtherOps(s.db, op.token);
    assert other.id in OtherOps(s'.db, op.token);
  }

  /******* Durable deadlines *******/

  /** Every deadline stays or goes. */
  ghost predicate Relaxed(t: Tables, t': Tables) {
    forall k <- t'.rows :: k in t.rows && t'.rows[k].token == t.rows[k].token
                           && (t'.rows[k].expiresAt == t.rows[k].expiresAt || t'.rows[k].expiresAt.None?)
  }

  lemma RelaxedSame(t: Tables, t': Tables)
    requires t'.rows == t.rows
    ensures Relaxed(t, t')
  {
  }

  lemma RelaxedTrans(t0: Tables, t1: Tables, t2: Tables)
    requires Relaxed(t0, t1) && Relaxed(t1, t2)
    ensures Relaxed(t0, t2)
  {
  }

  /** A start or restart of the attempt with this deadline is pending. */
  ghost predicate StartPending(t: Tables, token: Id, deadline: Option<int>) {
    exists o :: o in t.ops && t.ops[o].token == token && (t.ops[o].kind.Start? || t.ops[o].kind.Restart?) && t.ops[o].deadline == deadline
  }

  /** A deadline of t is still there, or gone, or replaced by the one of a start or restart that was pending in t. */
  ghost predicate Dates(t: Tables, row: Sandbox, deadline: Option<int>) {
    deadline == row.expiresAt || deadline.None? || StartPending(t, row.token, deadline)
  }

  ghost predicate Dated(t: Tables, t': Tables) {
    forall k <- t'.rows :: k in t.rows && t'.rows[k].token == t.rows[k].token && t'.rows[k].nativeId == t.rows[k].nativeId
                           && Dates(t, t.rows[k], t'.rows[k].expiresAt)
  }

  lemma DatedRefl(t: Tables)
    ensures Dated(t, t)
  {
  }

  lemma RelaxedDates(t0: Tables, t: Tables, t': Tables)
    requires Dated(t0, t) && Relaxed(t, t') && Kept(t, t')
    ensures Dated(t0, t')
  {
    hide StartPending;
  }

  /** The rest of a stop leaves the deadlines alone, or drops that of its own sandbox. */
  lemma StopRelaxes(s: State, s': State, op: Operation, rt: Runtime, calm: bool)
    requires op.kind.Stop? && (During(s, s', op, rt, calm) || After(s, s', op, rt, calm))
    ensures Relaxed(s.db, s'.db)
  {
    hide Inv, Apart, Settled;
    forall k | k in s'.db.rows && s'.db.rows[k].token != op.token ensures k in s.db.rows && s'.db.rows[k] == s.db.rows[k] {
      OtherRowIs(s.db, s'.db, op.token, k);
    }
  }

  /** Recovery of an intent that was pending in t0. */
  lemma AttemptDates(t0: Tables, s: State, s': State, op: Operation, rt: Runtime, calm: bool)
    requires Dated(t0, s.db) && op.id in t0.ops && t0.ops[op.id] == op
    requires During(s, s', op, rt, calm) || After(s, s', op, rt, calm)
    ensures Dated(t0, s'.db)
  {
    hide Inv, Apart, Settled;
    forall k | k in s'.db.rows && s'.db.rows[k].token != op.token ensures k in s.db.rows && s'.db.rows[k] == s.db.rows[k] {
      OtherRowIs(s.db, s'.db, op.token, k);
    }
    assert (op.kind.Start? || op.kind.Restart?) ==> StartPending(t0, op.token, op.deadline);
    hide OnlyAttempt, StartPending;
  }

  /******* Sandboxes at rest *******/

  /** n has no owner, or its owner has nothing pending and no deadline. */
  ghost predicate Quiet(s: State, n: Id) {
    OwnerOf(s.db, n).Some? ==> Idle(s, n) && OwnerOf(s.db, n).value.expiresAt.None?
  }

  lemma QuietIsStopped(s: State, n: Id, rt: Runtime)
    requires Inv(s, rt) && Quiet(s, n) && OwnerOf(s.db, n).Some?
    ensures Stopped(s.native, OwnerOf(s.db, n).value.token)
  {
    IdleIsStopped(s, n, rt);
  }

  lemma StoppedIsQuiet(s: State, n: Id)
    requires OwnerOf(s.db, n).Some? ==>
      var row := OwnerOf(s.db, n).value; row.expiresAt.None? && IntentOf(s.db, row.token).None?
    ensures Quiet(s, n)
  {
  }

  /** What is done to one sandbox leaves another at rest. */
  lemma QuietStays(s: State, s': State, n: Id, other: Id, deletes: bool, rt: Runtime)
    requires Inv(s, rt) && Inv(s', rt) && OnlyOwner(s, s', other, deletes) && n != other && Quiet(s, n)
    ensures Quiet(s', n)
  {
    OwnerKeeps(s, s', other, deletes);
    hide Moves;
    if OwnerOf(s'.db, n).Some? && OwnerOf(s.db, other).Some? {
      OwnerToken(s', n, rt);
      OwnerToken(s, other, rt);
      var row, own := OwnerOf(s'.db, n).value, OwnerOf(s.db, other).value;
      NotItsOwner(s, row, own, n, rt);
      assert RowsOk(s.db.rows, rt);
      hide Inv, Apart, Kept;
      OtherRowIs(s.db, s'.db, own.token, row.id);
      OwnerIs(s.db, rt, row.id, n);
      OtherIntent(s.db, s'.db, own.token, row.token);
    }
  }

  /** A sandbox at rest is not disturbed by what is done to another one. */
  lemma RestStays(s: State, s': State, n: Id, other: Id, deletes: bool, rt: Runtime)
    requires Inv(s, rt) && Inv(s', rt) && OnlyOwner(s, s', other, deletes) && n != other && OwnerOf(s.db, n).Some? && Idle(s, n)
    ensures OwnerOf(s'.db, n).Some? && Idle(s', n)
  {
    OwnerToken(s, n, rt);
    if OwnerOf(s.db, other).Some? {
      OwnerToken(s, other, rt);
      var row, own := OwnerOf(s.db, n).value, OwnerOf(s.db, other).value;
      assert row.token != own.token by { InvParts(s, rt); }
      assert RowsOk(s'.db.rows, rt) by { InvParts(s', rt); }
      hide Inv, Apart, Kept, Moves;
      OtherRowIs(s'.db, s.db, own.token, row.id);
      OwnerIs(s'.db, rt, row.id, n);
      OtherIntent(s.db, s'.db, own.token, row.token);
    } else {
      EnvSame(s, s');
    }
  }

  lemma NotItsOwner(s: State, row: Sandbox, own: Sandbox, n: Id, rt: Runtime)
    requires Inv(s, rt) && own.id in s.db.rows && s.db.rows[own.id] == own && own.nativeId != n
    requires row.id in s.db.rows ==> s.db.rows[row.id].nativeId == n && s.db.rows[row.id].token == row.token
    requires row.id in s.db.rows
    ensures row.token != own.token
  {
  }

  lemma OtherIntent(t: Tables, t': Tables, token: Id, other: Id)
    requires OtherOps(t, token) == OtherOps(t', token) && other != token && IntentOf(t, other).None?
    ensures IntentOf(t', other).None?
  {
    forall k | k in t'.ops && t'.ops[k].token != token ensures k in t.ops && t.ops[k] == t'.ops[k] {
      OtherOpIs(t, t', token, k);
    }
  }

  lemma OtherOpIs(t: Tables, t': Tables, token: Id, k: Id)
    requires OtherOps(t, token) == OtherOps(t', token) && k in t'.ops && t'.ops[k].token != token
    ensures k in t.ops && t.ops[k] == t'.ops[k]
  {
    assert k in OtherOps(t', token);
    assert k in OtherOps(t, token);
  }
}
