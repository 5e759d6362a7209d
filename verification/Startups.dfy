/** internal/docker/recovery.go, Recover: the startup sweep as it runs, against the states that Lifecycle describes. */
module Startups {
  import opened Prelude
  import opened Records
  import opened Repositories
  import opened Intents
  import opened Settlement
  import opened Attempts
  import opened Daemons
  import opened Lifecycle
  import opened DockerClient

  /** A container was stopped in spite of this deadline, which was still ahead. */
  ghost predicate StoppedEarly(log: seq<Effect>, log': seq<Effect>, token: Id, deadline: Option<int>) {
    exists i :: |log| <= i < |log'| && log'[i].owner == token && log'[i].due == deadline && deadline.Some? && log'[i].at < deadline.value
  }

  /** What the startup does with a sandbox whose row was read before its pending intent op was recovered: the recovery,
      then the sweep. From a state in which the sweep stops early, and if no call fails and the new deadline is not
      reached meanwhile, the container is indeed stopped before its durable deadline. */
  method RecoverAndSweep(client: Client, op: Operation, row: Sandbox)
    requires client.Valid() && client.calm && Steady(client.daemon.containers, op.token)
    requires Holds(client.S(), op) && row.id in client.repo.rows && client.repo.rows[row.id] == row && row.token == op.token
    requires StopsEarly(client.S(), op, row, client.now)
    modifies client, client.repo, client.daemon
    ensures client.Valid() && old(client.daemon.log) <= client.daemon.log
    ensures client.faults == old(client.faults) && op.deadline.Some? && client.now < op.deadline.value ==>
      StoppedEarly(old(client.daemon.log), client.daemon.log, op.token, op.deadline)
  {
    hide Inv, Settled, StopsEarly, Steady, Stopped, OwnerOf, Idle, OnlyOwner, Relaxed, During, After;
    ghost var s := client.S();
    SweepStopsEarlyIff(s, op, row, client.now, Docker);
    EarlyMeans(s, op, row, client.now, Docker);
    var recovered := client.Reconcile(op);
    ghost var log1 := client.daemon.log;
    if client.faults == old(client.faults) {
      RecoveredEnd(s, client.S(), op, Docker);
    }
    var swept := client.SweepOverdue(row);
    if client.faults == old(client.faults) && op.deadline.Some? && client.now < op.deadline.value {
      assert client.daemon.log[|log1|].owner == op.token;
    }
  }

  lemma RecoveredEnd(s: State, s': State, op: Operation, rt: Runtime)
    requires After(s, s', op, rt, true)
    ensures s' == Settled(s, op)
  {
    hide Inv, OnlyAttempt, Kept, Outcome, Settled;
  }

  /** What the sweep finds in the settled state. */
  lemma EarlyMeans(s: State, op: Operation, row: Sandbox, now: int, rt: Runtime)
    requires Inv(s, rt) && Holds(s, op) && row.id in s.db.rows && s.db.rows[row.id] == row && row.token == op.token
    requires StopsEarly(s, op, row, now)
    ensures row.nativeId != NONE && row.runtime == rt && Holds(s, op)
    ensures var t := Settled(s, op);
      && OwnerOf(t.db, row.nativeId).Some? && Idle(t, row.nativeId)
      && OwnerOf(t.db, row.nativeId).value.expiresAt == op.deadline && OwnerOf(t.db, row.nativeId).value.token == op.token
      && row.nativeId in t.native && t.native[row.nativeId].running
  {
    SweepStopsEarlyIff(s, op, row, now, rt);
    hide Settled, Idle;
    assert RowsOk(s.db.rows, rt) by { InvParts(s, rt); }
    assert row.nativeId != NONE && row.runtime == rt;
    RunsAtRow(s, row, rt);
    hide Inv, RowsOk;
    OwnerSettles(s, op, row, rt);
    StartSettles(s, op);
  }

  lemma RunsAtRow(s: State, row: Sandbox, rt: Runtime)
    requires Inv(s, rt) && row.id in s.db.rows && s.db.rows[row.id] == row && RunningFor(s.native, row.token)
    ensures row.nativeId in s.native && s.native[row.nativeId].running
  {
    var n :| n in s.native && s.native[n].owner == row.token && s.native[n].running;
    assert s.db.rows[row.id].nativeId == n by { InvParts(s, rt); hide Inv; }
  }
}
