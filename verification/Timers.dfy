/** The expiration timers of the Docker backend (internal/docker/lifecycle.go): nothing runs without one. */
module Timers {
  import opened Prelude
  import opened Records
  import opened Repositories
  import opened Intents
  import opened Settlement
  import opened Attempts

  const RETRY_DELAY: int := 30

  datatype TimerEntry = TimerEntry(serial: nat, expiresAt: int, fireAt: int, setAt: int)

  /** A timer never fires before its recorded deadline; and at that deadline, or at most the retry delay after it was
      set. */
  type Timer = t: TimerEntry | t.expiresAt <= t.fireAt <= Max(t.expiresAt, t.setAt + RETRY_DELAY) witness TimerEntry(0, 0, 0, 0)

  type Clock = map<Id, Timer>

  /** The container of a row does not run, or has a timer; or the row is what a creation left that could not be rolled
      back, which has a job instead. */
  ghost predicate TicksFor(s: State, row: Sandbox, timers: Clock) {
    row.token in s.ledger.abandoned || Stopped(s.native, row.token) || row.nativeId in timers
  }

  /** No sandbox runs without a timer. */
  ghost predicate Ticks(s: State, timers: Clock) {
    forall k <- s.db.rows :: TicksFor(s, s.db.rows[k], timers)
  }

  /** The same for one attempt, whose container is n. */
  ghost predicate Ticking(s: State, token: Id, n: Id, timers: Clock) {
    !HasRow(s.db, token) || token in s.ledger.abandoned || Stopped(s.native, token) || n in timers
  }

  /** Only rows of this attempt can name the container x. */
  ghost predicate Clear(t: Tables, token: Id, x: Id) {
    forall k <- t.rows :: t.rows[k].nativeId == x ==> t.rows[k].token == token
  }

  lemma ClearIntent(s: State, op: Operation, rt: Runtime)
    requires Inv(s, rt) && Holds(s, op)
    ensures Clear(s.db, op.token, op.nativeId)
  {
    forall k | k in s.db.rows && Touches(op, s.db.rows[k]) ensures Bound(op, s.db.rows[k]) {
    }
  }

  lemma ClearRow(s: State, k: Id, rt: Runtime)
    requires Inv(s, rt) && k in s.db.rows
    ensures Clear(s.db, s.db.rows[k].token, s.db.rows[k].nativeId)
  {
  }

  lemma ClearSight(s: State, n: Id, rt: Runtime)
    requires Inv(s, rt) && n in s.native
    ensures Clear(s.db, s.native[n].owner, n)
  {
  }

  lemma ClearStays(t: Tables, t': Tables, token: Id, x: Id)
    requires Clear(t, token, x) && Kept(t, t')
    ensures Clear(t', token, x)
  {
  }

  /** The timers of all other attempts are what they were. */
  ghost predicate OthersTimed(t: Tables, token: Id, was: Clock, timers: Clock) {
    forall k <- t.rows :: t.rows[k].token != token && t.rows[k].nativeId in was ==>
      t.rows[k].nativeId in timers && timers[t.rows[k].nativeId] == was[t.rows[k].nativeId]
  }

  lemma OneTimed(t: Tables, token: Id, x: Id, was: Clock, timers: Clock)
    requires Clear(t, token, x) && timers - {x} == was - {x}
    ensures OthersTimed(t, token, was, timers)
  {
    forall k | k in t.rows && t.rows[k].token != token && t.rows[k].nativeId in was
      ensures t.rows[k].nativeId in timers && timers[t.rows[k].nativeId] == was[t.rows[k].nativeId]
    {
      assert t.rows[k].nativeId in was - {x} && t.rows[k].nativeId in timers - {x};
    }
  }

  lemma SameTimed(t: Tables, token: Id, timers: Clock)
    ensures OthersTimed(t, token, timers, timers)
  {
  }

  /** Whatever is done to one attempt, nothing else starts to run without a timer. */
  lemma OthersTick(s: State, s': State, token: Id, was: Clock, timers: Clock, rt: Runtime)
    requires Ticks(s, was) && OnlyAttempt(s, s', token) && Inv(s, rt) && Inv(s', rt)
    requires OthersTimed(s'.db, token, was, timers)
    requires forall k <- s'.db.rows :: s'.db.rows[k].token == token ==> TicksFor(s', s'.db.rows[k], timers)
    ensures Ticks(s', timers)
  {
    forall k | k in s'.db.rows && s'.db.rows[k].token != token ensures TicksFor(s', s'.db.rows[k], timers) {
      OtherRowIs(s.db, s'.db, token, k);
      assert TicksFor(s, s.db.rows[k], was);
      if Stopped(s.native, s'.db.rows[k].token) {
        OthersRest(s, s', token, k, rt);
      }
    }
  }

  lemma OthersRest(s: State, s': State, token: Id, k: Id, rt: Runtime)
    requires OnlyAttempt(s, s', token) && Inv(s, rt) && Inv(s', rt) && k in s.db.rows && k in s'.db.rows && s'.db.rows[k] == s.db.rows[k]
    requires s.db.rows[k].token != token && Stopped(s.native, s.db.rows[k].token)
    ensures Stopped(s'.native, s.db.rows[k].token)
  {
    hide Inv;
    RowNames(s, k, rt);
    RowNames(s', k, rt);
  }

  lemma RowNames(s: State, k: Id, rt: Runtime)
    requires Inv(s, rt) && k in s.db.rows
    ensures s.db.rows[k].nativeId < s.ledger.supply
    ensures forall n <- s.native :: s.native[n].owner == s.db.rows[k].token ==> n == s.db.rows[k].nativeId
  {
  }

  /** The timers of containers with an identity below lo are what they were. */
  ghost predicate Older(lo: Id, was: Clock, timers: Clock) {
    forall n <- was :: n < lo ==> n in timers && timers[n] == was[n]
  }

  lemma OlderSame(lo: Id, timers: Clock)
    ensures Older(lo, timers, timers)
  {
  }

  lemma OlderStay(lo: Id, n: Id, was: Clock, timers: Clock)
    requires timers - {n} == was - {n} && lo <= n
    ensures Older(lo, was, timers)
  {
    forall m | m in was && m < lo ensures m in timers && timers[m] == was[m] {
      assert m in was - {n} && m in timers - {n};
    }
  }

  /** A new sandbox ticks, or what is left of it does not run; no other lost its timer. */
  lemma NewTicks(s: State, s': State, token: Id, was: Clock, timers: Clock, rt: Runtime)
    requires OnlyAttempt(s, s', token) && Inv(s, rt) && Inv(s', rt) && Older(s.ledger.supply, was, timers)
    requires forall k <- s'.db.rows :: s'.db.rows[k].token == token ==> TicksFor(s', s'.db.rows[k], timers)
    ensures Ticks(s, was) ==> Ticks(s', timers)
  {
    forall k | k in s'.db.rows && s'.db.rows[k].token != token ensures s'.db.rows[k].nativeId < s.ledger.supply {
      OtherRowIs(s.db, s'.db, token, k);
      RowNames(s, k, rt);
    }
    hide Inv, OnlyAttempt, Ticks, TicksFor;
    if Ticks(s, was) {
      OthersTick(s, s', token, was, timers, rt);
    }
  }

  /** The environment starts nothing. */
  lemma EnvTicks(s: State, s': State, was: Clock, timers: Clock, rt: Runtime)
    requires Ticks(s, was) && EnvStep(s, s') && Inv(s, rt)
    requires forall k <- s.db.rows :: s.db.rows[k].nativeId in was ==> s.db.rows[k].nativeId in timers
    ensures Ticks(s', timers)
  {
    EnvSame(s, s');
    forall k | k in s'.db.rows ensures TicksFor(s', s'.db.rows[k], timers) {
      assert TicksFor(s, s.db.rows[k], was);
      PassStays(s, s', s.db.rows[k].token, None) by { InvParts(s, rt); }
    }
  }

  lemma SameKeys(n: Id, was: Clock, timers: Clock)
    requires timers == was || (timers - {n} == was - {n} && n in timers) || (timers - {n} == was && n in timers)
    ensures was.Keys <= timers.Keys
  {
    forall m | m in was && m != n ensures m in timers {
      assert m in was - {n};
    }
  }

  lemma FewerTimers(n: Id, was: Clock, timers: Clock, some: set<Id>)
    requires timers - {n} == was - {n} && was.Keys <= some
    ensures timers.Keys <= some + {n} && (n !in timers ==> timers.Keys <= some)
  {
    forall m | m in timers && m != n ensures m in some {
      assert m in timers - {n} && m in was - {n};
    }
  }

  lemma EnvTicking(s: State, s': State, timers: Clock, rt: Runtime)
    requires EnvStep(s, s') && Inv(s, rt)
    ensures Ticks(s, timers) ==> Ticks(s', timers)
  {
    hide Ticks, EnvStep, Inv;
    if Ticks(s, timers) {
      EnvTicks(s, s', timers, timers, rt);
    }
  }

  lemma MoreTicks(s: State, n: Id, was: Clock, timers: Clock)
    requires timers - {n} == was - {n} && n in timers
    ensures Ticks(s, was) ==> Ticks(s, timers)
  {
    hide Stopped;
    forall m | m in was ensures m in timers {
      assert m != n ==> m in was - {n} && m in timers - {n};
    }
  }

  /** Neither does a change of provenance, or the end of an intent. */
  lemma SameRowsTick(s: State, s': State, timers: Clock)
    requires Ticks(s, timers) && s.ledger.abandoned <= s'.ledger.abandoned && Kept(s.db, s'.db)
    requires forall k <- s.db.rows :: Stopped(s.native, s.db.rows[k].token) ==> Stopped(s'.native, s.db.rows[k].token)
    ensures Ticks(s', timers)
  {
    hide Stopped;
    forall k | k in s'.db.rows ensures TicksFor(s', s'.db.rows[k], timers) {
      assert TicksFor(s, s.db.rows[k], timers);
    }
  }

  lemma RowsTicking(s: State, row: Sandbox, timers: Clock)
    requires row.id in s.db.rows && s.db.rows[row.id] == row
    ensures TicksFor(s, row, timers) <==> Ticking(s, row.token, row.nativeId, timers)
  {
    hide Stopped;
  }

  /** What one operation does to the sandbox that owns n. */
  lemma OwnerTicks(s: State, s': State, n: Id, deletes: bool, was: Clock, timers: Clock, rt: Runtime)
    requires Ticks(s, was) && OnlyOwner(s, s', n, deletes) && Inv(s, rt) && Inv(s', rt) && timers - {n} == was - {n}
    requires OwnerOf(s.db, n).Some? ==>
      var token := OwnerOf(s.db, n).value.token; Ticking(s, token, n, was) ==> Ticking(s', token, n, timers)
    ensures Ticks(s', timers)
  {
    hide Inv, OnlyAttempt, Stopped, Moves, Ticking, Ticks, TicksFor, OwnerOf, Clear;
    if OwnerOf(s.db, n).None? {
      NobodyTicks(s, s', n, was, timers, rt);
    } else {
      var row := OwnerOf(s.db, n).value;
      OwnerToken(s, n, rt);
      ClearRow(s, row.id, rt);
      TicksAt(s, row.id, was);
      RowsTicking(s, row, was);
      ClearStays(s.db, s'.db, row.token, n);
      OneTimed(s'.db, row.token, n, was, timers);
      forall k | k in s'.db.rows && s'.db.rows[k].token == row.token ensures TicksFor(s', s'.db.rows[k], timers) {
        SameNative(s, s', k, row, rt);
        RowsTicking(s', s'.db.rows[k], timers);
      }
      OthersTick(s, s', row.token, was, timers, rt);
    }
  }

  lemma TicksAt(s: State, k: Id, timers: Clock)
    requires Ticks(s, timers) && k in s.db.rows
    ensures TicksFor(s, s.db.rows[k], timers)
  {
  }

  lemma NobodyTicks(s: State, s': State, n: Id, was: Clock, timers: Clock, rt: Runtime)
    requires Ticks(s, was) && OwnerOf(s.db, n).None? && EnvStep(s, s') && Inv(s, rt) && timers - {n} == was - {n}
    ensures Ticks(s', timers)
  {
    assert forall k <- s.db.rows :: s.db.rows[k].nativeId != n;
    hide Inv, OwnerOf, Ticks, EnvStep;
    forall k | k in s.db.rows && s.db.rows[k].nativeId in was ensures s.db.rows[k].nativeId in timers {
      assert s.db.rows[k].nativeId in was - {n} && s.db.rows[k].nativeId in timers - {n};
    }
    EnvTicks(s, s', was, timers, rt);
  }

  lemma SameNative(s: State, s': State, k: Id, row: Sandbox, rt: Runtime)
    requires Inv(s, rt) && Inv(s', rt) && Kept(s.db, s'.db) && row.id in s.db.rows && s.db.rows[row.id] == row
    requires k in s'.db.rows && s'.db.rows[k].token == row.token
    ensures s'.db.rows[k].id == k && s'.db.rows[k].nativeId == row.nativeId
  {
  }

  /** It is enough that the container has a timer afterwards; or that it was not started, and its timer was dropped only
      when it was stopped or the row gone. */
  lemma OwnerStays(s: State, s': State, n: Id, deletes: bool, was: Clock, timers: Clock, rt: Runtime)
    requires OnlyOwner(s, s', n, deletes) && Inv(s, rt) && Inv(s', rt) && timers - {n} == was - {n}
    requires OwnerOf(s.db, n).Some? && n !in timers ==>
      var token := OwnerOf(s.db, n).value.token;
      && (Stopped(s.native, token) ==> Stopped(s'.native, token))
      && (n in was ==> Stopped(s'.native, token) || !HasRow(s'.db, token))
    ensures Ticks(s, was) ==> Ticks(s', timers)
  {
    hide Inv, OwnerOf, Stopped, Ticks, Moves;
    if Ticks(s, was) {
      if OwnerOf(s.db, n).Some? && Ticking(s, OwnerOf(s.db, n).value.token, n, was) {
        assert Ticking(s', OwnerOf(s.db, n).value.token, n, timers) by { hide Apart; }
      }
      OwnerTicks(s, s', n, deletes, was, timers, rt);
    }
  }

  /** A timer may be dropped when nobody owns its container, or when that is stopped. */
  lemma DropTicks(s: State, n: Id, was: Clock, rt: Runtime)
    requires Inv(s, rt) && (OwnerOf(s.db, n).Some? ==> Stopped(s.native, OwnerOf(s.db, n).value.token))
    ensures Ticks(s, was) ==> Ticks(s, was - {n})
  {
    EnvIsOwner(s, n, rt);
    hide Inv, OnlyOwner, OwnerOf, Stopped, Ticks;
    assert (was - {n}) - {n} == was - {n};
    OwnerStays(s, s, n, false, was, was - {n}, rt);
  }

  /******* The timers after a startup *******/

  /** The row has a timer with its deadline; or its deadline is the one of a start or restart that was pending in t0, and
      the response to its completion was lost, so that the timer may still have an earlier entry. */
  ghost predicate ArmedFor(t0: Tables, row: Sandbox, timers: Clock, lost: bool) {
    && row.nativeId in timers
    && (Some(timers[row.nativeId].expiresAt) == row.expiresAt || (lost && StartPending(t0, row.token, row.expiresAt)))
  }

  /** Every durable deadline has its timer. */
  ghost predicate Armed(t0: Tables, t: Tables, timers: Clock, lost: bool) {
    forall k <- t.rows :: t.rows[k].expiresAt.Some? ==> ArmedFor(t0, t.rows[k], timers, lost)
  }

  /** Every pending start and restart has a timer. */
  ghost predicate Promised(t: Tables, timers: Clock) {
    forall o <- t.ops :: !t.ops[o].kind.Create? && t.ops[o].deadline.Some? ==> t.ops[o].nativeId in timers
  }

  lemma PromisedMore(t: Tables, was: Clock, timers: Clock)
    requires Promised(t, was) && was.Keys <= timers.Keys
    ensures Promised(t, timers)
  {
  }

  /** Once every intent and every deadline is registered, everything is armed, and nothing runs without a timer. */
  lemma Registered(s: State, rows: seq<Sandbox>, timers: Clock, rt: Runtime)
    requires Inv(s, rt) && Promised(s.db, timers) && forall k <- s.db.rows :: s.db.rows[k] in rows
    requires forall i | 0 <= i < |rows| && rows[i].runtime == rt && rows[i].expiresAt.Some? ::
      rows[i].nativeId in timers && timers[rows[i].nativeId].expiresAt == rows[i].expiresAt.value
    ensures Armed(s.db, s.db, timers, false) && Ticks(s, timers)
  {
    assert RowsOk(s.db.rows, rt) by { InvParts(s, rt); }
    forall k | k in s.db.rows && s.db.rows[k].expiresAt.Some? ensures ArmedFor(s.db, s.db.rows[k], timers, false) {
      assert s.db.rows[k] in rows;
    }
    forall k | k in s.db.rows && !Stopped(s.native, s.db.rows[k].token) ensures s.db.rows[k].nativeId in timers {
      RunningIsDated(s, k, rt);
      hide Inv, Stopped;
    }
  }

  /** The container of a row runs under the deadline of the row, or of a pending start. */
  lemma RunningIsDated(s: State, k: Id, rt: Runtime)
    requires Inv(s, rt) && k in s.db.rows && !Stopped(s.native, s.db.rows[k].token)
    ensures s.db.rows[k].expiresAt.Some? ||
      exists o :: o in s.db.ops && !s.db.ops[o].kind.Create? && s.db.ops[o].deadline.Some? && s.db.ops[o].nativeId == s.db.rows[k].nativeId
  {
    var row := s.db.rows[k];
    RunningHasDeadline(s, row.token, rt);
    hide Stopped;
    if !(exists r :: r in s.db.rows && s.db.rows[r].token == row.token && s.db.rows[r].expiresAt.Some?) {
      var o :| o in s.db.ops && s.db.ops[o].token == row.token && Starting(s.db.ops[o].kind) && s.db.ops[o].deadline.Some?;
      assert Touches(s.db.ops[o], row) && Bound(s.db.ops[o], row);
    }
  }

  lemma RunningHasDeadline(s: State, token: Id, rt: Runtime)
    requires Inv(s, rt) && !Stopped(s.native, token) && token in s.ledger.issued
    ensures HasDeadline(s.db, token)
  {
  }

  /** What the recovery of one intent means for the timers: if it was finished, they follow the row; if not, they are
      unchanged, and so is the row unless a response was lost. */
  lemma ReconciledArmed(t0: Tables, s: State, s': State, op: Operation, was: Clock, timers: Clock, lost: bool, done: bool, rt: Runtime, led: bool)
    requires Inv(s, rt) && Holds(s, op) && Armed(t0, s.db, was, lost) && Promised(s.db, was) && OthersTimed(s'.db, op.token, was, timers)
    requires op.kind.Start? || op.kind.Restart? ==> StartPending(t0, op.token, op.deadline)
    requires During(s, s', op, rt, led) || After(s, s', op, rt, led)
    requires if done
      then After(s, s', op, rt, led) && (Undoing(op.kind) || Follows(s'.db, op, timers))
      else timers == was && (lost || During(s, s', op, rt, led))
    ensures Armed(t0, s'.db, timers, lost)
  {
    OwnRows(s, s', op, rt, led);
    hide Inv, During, After, StartPending;
    forall k | k in s'.db.rows && s'.db.rows[k].expiresAt.Some? ensures ArmedFor(t0, s'.db.rows[k], timers, lost) {
      if s'.db.rows[k].token != op.token {
        assert s'.db.rows[k] == s.db.rows[k];
        assert ArmedFor(t0, s.db.rows[k], was, lost);
      } else if done {
        assert k == op.publicId;
      } else if s'.db.rows[k] == s.db.rows[k] {
        assert ArmedFor(t0, s.db.rows[k], was, lost);
      }
    }
  }

  /** The row of the intent has a deadline exactly if there is a timer for it, with this deadline. */
  ghost predicate Follows(t: Tables, op: Operation, timers: Clock) {
    && op.publicId in t.rows && t.rows[op.publicId].token == op.token
    && (t.rows[op.publicId].expiresAt.Some? ==>
          op.nativeId in timers && t.rows[op.publicId].expiresAt == Some(timers[op.nativeId].expiresAt))
  }

  /** The rows after the recovery of an intent. */
  lemma OwnRows(s: State, s': State, op: Operation, rt: Runtime, led: bool)
    requires Inv(s, rt) && Holds(s, op) && (During(s, s', op, rt, led) || After(s, s', op, rt, led))
    ensures During(s, s', op, rt, led) ==> s'.db.rows == s.db.rows
    ensures forall k <- s'.db.rows :: s'.db.rows[k].token != op.token ==> k in s.db.rows && s'.db.rows[k] == s.db.rows[k]
    ensures After(s, s', op, rt, led) && Undoing(op.kind) ==> forall k <- s'.db.rows :: s'.db.rows[k].token != op.token
    ensures After(s, s', op, rt, led) && !Undoing(op.kind) ==> forall k <- s'.db.rows :: s'.db.rows[k].token == op.token ==>
      k == op.publicId && s'.db.rows[k].nativeId == op.nativeId && Ends(op, s'.db.rows[k].expiresAt)
  {
    forall k | k in s'.db.rows && s'.db.rows[k].token != op.token ensures k in s.db.rows && s'.db.rows[k] == s.db.rows[k] {
      OtherRowIs(s.db, s'.db, op.token, k);
    }
    if !Undoing(op.kind) {
      assert Names(s.db, op) by { NamesOf(s, op, rt); StoredIsShaped(s, op, rt); }
    }
    hide Inv, OnlyAttempt, Settled;
  }

  /** The intents that are left keep their timers. */
  lemma StillPromised(s: State, s': State, op: Operation, was: Clock, timers: Clock, rt: Runtime, led: bool)
    requires Inv(s, rt) && Inv(s', rt) && Holds(s, op) && Promised(s.db, was) && OthersTimed(s'.db, op.token, was, timers)
    requires During(s, s', op, rt, led) || After(s, s', op, rt, led)
    requires After(s, s', op, rt, led) || timers == was
    ensures Promised(s'.db, timers)
  {
    forall o | o in s'.db.ops && !s'.db.ops[o].kind.Create? && s'.db.ops[o].deadline.Some? ensures s'.db.ops[o].nativeId in timers {
      PromisedOp(s, s', op, o, rt, led);
    }
  }

  lemma PromisedOp(s: State, s': State, op: Operation, o: Id, rt: Runtime, led: bool)
    requires Inv(s, rt) && Inv(s', rt) && Holds(s, op) && o in s'.db.ops && !s'.db.ops[o].kind.Create?
    requires During(s, s', op, rt, led) || After(s, s', op, rt, led)
    ensures o in s.db.ops && s.db.ops[o] == s'.db.ops[o]
    ensures After(s, s', op, rt, led) ==> exists k :: k in s'.db.rows && s'.db.rows[k].token != op.token && s'.db.rows[k].nativeId == s'.db.ops[o].nativeId
  {
    var p := s'.db.ops[o];
    assert p.publicId in s'.db.rows && Bound(p, s'.db.rows[p.publicId]) by { InvParts(s', rt); }
    if p.token == op.token {
      OnlyIntent(s'.db, op, rt) by { InvParts(s', rt); }
    } else {
      OtherOpIs(s.db, s'.db, op.token, o);
    }
  }

  /** The sweep drops a timer only with the deadline. */
  lemma SweptArmed(t0: Tables, t: Tables, t': Tables, n: Id, was: Clock, timers: Clock, lost: bool, rt: Runtime)
    requires Armed(t0, t, was, lost) && Relaxed(t, t') && Kept(t, t') && RowsOk(t.rows, rt)
    requires timers == was || (timers == was - {n} && forall k <- t'.rows :: t'.rows[k].nativeId == n ==> t'.rows[k].expiresAt.None?)
    ensures Armed(t0, t', timers, lost)
  {
    hide StartPending;
    forall k | k in t'.rows && t'.rows[k].expiresAt.Some? ensures ArmedFor(t0, t'.rows[k], timers, lost) {
      assert ArmedFor(t0, t.rows[k], was, lost);
    }
  }

  lemma LostArmed(t0: Tables, t: Tables, timers: Clock, lost: bool, lost': bool)
    requires Armed(t0, t, timers, lost) && (lost ==> lost')
    ensures Armed(t0, t, timers, lost')
  {
    hide StartPending;
    forall k | k in t.rows && t.rows[k].expiresAt.Some? ensures ArmedFor(t0, t.rows[k], timers, lost') {
      assert ArmedFor(t0, t.rows[k], timers, lost);
    }
  }
}
