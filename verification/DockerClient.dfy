/** internal/docker/lifecycle.go and recovery.go. Every method runs under the lifecycle lock, so the
    methods themselves do not interleave; the environment acts between any two calls, any call may
    fail or lose its response, and the process may die at any call: from then on every call fails
    without effect until Reboot. */
module DockerClient {
  import opened Prelude
  import opened Records
  import opened Repositories
  import opened Intents
  import opened Protocol
  import opened Settlement
  import opened Attempts
  import opened Creations
  import opened Daemons
  import opened Timers

  const DEFAULT_TIMEOUT: int := 900

  /** The running process: how often it was started, whether the backend is closing, whether the queue of background
      jobs has been stopped, and whether the startup has registered everything. */
  datatype Process = Process(boots: nat, closing: bool, quit: bool, ready: bool)

  /** What the process remembers of attempts that it has not finished. */
  datatype Memory = Memory(attempts: map<Id, Operation>, jobs: map<Id, Operation>, process: Process)

  /** One arrival at the lifecycle lock, or a step of the world. */
  datatype Event =
    | CreateEvent(prechosen: bool, timeout: int, ports: Ports, provenance: Provenance, imageExists: bool, awaitAdoption: bool)
    | AdoptEvent(row: Sandbox)
    | MarkEvent(row: Sandbox)
    | FailedEvent(native: Id)
    | DiscardEvent(native: Id)
    | StartEvent(native: Id)
    | StopEvent(native: Id)
    | RestartEvent(native: Id)
    | RemoveEvent(native: Id)
    | RenewEvent(native: Id, timeout: int)
    | ExpireEvent(native: Id, entry: Timer)
    | JobEvent(id: Id)
    | RecoverEvent(budget: nat)
    | QuitEvent
    | ShutdownEvent
    | RebootEvent
    | PassEvent

  /** Nothing but the containers of one's own intent was ever stopped or removed. */
  ghost predicate NoTrespass(log: seq<Effect>) {
    forall i | 0 <= i < |log| :: log[i].owner == log[i].actor.token
  }

  /** The new entries of the log were all made for op, between since and until, under the deadline due. */
  ghost predicate ActedFor(log: seq<Effect>, log': seq<Effect>, op: Operation, since: int, until: int, due: Option<int>) {
    && log <= log'
    && forall i | |log| <= i < |log'| :: log'[i].actor == op && since <= log'[i].at <= until && log'[i].due == due
  }

  /** The outcomes of a stop after which the container is known not to run. */
  predicate Halted(r: Result<()>) {
    r.Ok? || r.error.AlreadyStopped? || r.error.NotFound?
  }

  /** The new entries of the log stop the container of row, under its deadline at that time. */
  ghost predicate StoppedFor(log: seq<Effect>, log': seq<Effect>, row: Sandbox, since: int, until: int) {
    && log <= log'
    && forall i | |log| <= i < |log'| ::
         log'[i].owner == row.token && log'[i].actor.kind.Stop? && since <= log'[i].at <= until && log'[i].due == row.expiresAt
  }

  /** The new entries of the log remove containers of this one attempt. */
  ghost predicate UndoneFor(log: seq<Effect>, log': seq<Effect>, token: Id) {
    && log <= log'
    && forall i | |log| <= i < |log'| :: log'[i].owner == token && log'[i].actor.token == token
  }

  /** Every new entry of the log was made at or after the durable deadline of its row. */
  ghost predicate OverdueOnly(log: seq<Effect>, log': seq<Effect>) {
    && log <= log'
    && forall i | |log| <= i < |log'| :: log'[i].due.Some? && log'[i].due.value <= log'[i].at
  }

  lemma ActedStops(log: seq<Effect>, log': seq<Effect>, op: Operation, at: int, last: int, row: Sandbox, since: int, until: int)
    requires ActedFor(log, log', op, at, last, row.expiresAt) && NoTrespass(log')
    requires op.kind.Stop? && op.token == row.token && since <= at && last <= until
    ensures StoppedFor(log, log', row, since, until)
  {
  }

  lemma ActedNothing(log: seq<Effect>, row: Option<Sandbox>, since: int, until: int)
    ensures row.Some? ==> StoppedFor(log, log, row.value, since, until)
  {
  }

  lemma SinceEarlier(log': seq<Effect>, log: seq<Effect>, row: Sandbox, since: int, at: int, until: int)
    requires StoppedFor(log, log', row, at, until) && since <= at
    ensures StoppedFor(log, log', row, since, until)
  {
  }

  /** The runtime is not just restarting a container of the attempt. */
  ghost predicate Steady(native: Natives, token: Id) {
    forall n <- native :: native[n].owner == token ==> !native[n].restarting
  }

  lemma SteadySight(native: Natives, token: Id, info: Observation)
    requires Steady(native, token) && Current(native, token, info) && info.Found?
    ensures !info.info.restarting
  {
  }

  lemma RunningIsNotStopped(s: State, token: Id, n: Id)
    requires n in s.native && s.native[n].owner == token && s.native[n].running
    ensures !Stopped(s.native, token)
  {
  }

  /******* What the process remembers *******/

  /** Every remembered attempt is numbered by its token, and its token and its container name the same row, if any. */
  ghost predicate Recorded(m: Memory, s: State) {
    forall n <- m.attempts :: Tracks(m.attempts[n], n, s)
  }

  ghost predicate Tracks(op: Operation, n: Id, s: State) {
    && op.nativeId == n && op.id == op.token && n < s.ledger.supply && op.token < s.ledger.supply
    && op.token in s.ledger.issued && op.token !in s.ledger.abandoned
    && forall k <- s.db.rows :: s.db.rows[k].nativeId == n <==> s.db.rows[k].token == op.token
  }

  /** While the process runs and its queue is not stopped: a job leaves only once its intent is retired; and an attempt
      is forgotten only once it is adopted or its row is gone. */
  ghost predicate Keeps(m: Memory, s: State, m': Memory, s': State) {
    && m.process.boots <= m'.process.boots
    && (m'.process.boots == m.process.boots ==>
          && (m.process.quit ==> m'.process.quit)
          && (!m'.process.quit ==> forall k <- m.jobs :: k in s.db.ops && k in s'.db.ops ==> k in m'.jobs)
          && (forall n <- m.attempts :: Recalled(m.attempts[n], n, m', s')))
  }

  ghost predicate Recalled(op: Operation, n: Id, m': Memory, s': State) {
    (n in m'.attempts && m'.attempts[n] == op) || op.token in s'.ledger.adopted || !HasRow(s'.db, op.token)
  }

  lemma KeepsTrans(m0: Memory, s0: State, m1: Memory, s1: State, m2: Memory, s2: State, rt: Runtime)
    requires Inv(s0, rt) && Recorded(m0, s0) && Onward(s0, s1) && Onward(s1, s2)
    requires Keeps(m0, s0, m1, s1) && Keeps(m1, s1, m2, s2)
    ensures Keeps(m0, s0, m2, s2)
  {
    assert forall k <- s0.db.ops :: k < s0.ledger.supply by { InvParts(s0, rt); hide Inv; }
    hide Inv;
    if m2.process.boots == m0.process.boots {
      assert forall k | k in s0.db.ops && k in s2.db.ops :: k in s1.db.ops by { hide HasRow, HasIntent; }
      forall n | n in m0.attempts ensures Recalled(m0.attempts[n], n, m2, s2) {
        assert Recalled(m0.attempts[n], n, m1, s1);
        assert Tracks(m0.attempts[n], n, s0);
        if !HasRow(s1.db, m0.attempts[n].token) {
          RowStaysAway(s1, s2, m0.attempts[n].token);
        }
      }
    }
  }

  lemma RowStaysAway(s: State, s': State, token: Id)
    requires Onward(s, s') && token < s.ledger.supply && !HasRow(s.db, token)
    ensures !HasRow(s'.db, token)
  {
    hide Fate;
  }

  lemma StillTracks(op: Operation, n: Id, s: State, s': State)
    requires Tracks(op, n, s) && Onward(s, s')
    ensures Tracks(op, n, s')
  {
    hide Fate;
  }

  /** No attempt is forgotten, and jobs are only added, or the queue was stopped. */
  lemma Remembered(m: Memory, s: State, m': Memory, s': State)
    requires Recorded(m, s) && Onward(s, s') && m'.attempts == m.attempts && m'.process.boots == m.process.boots
    requires m.process.quit ==> m'.process.quit
    requires m'.process.quit || forall k <- m.jobs :: k in m'.jobs
    ensures Recorded(m', s') && Keeps(m, s, m', s')
  {
    hide Tracks, Onward;
    forall n | n in m'.attempts ensures Tracks(m'.attempts[n], n, s') {
      StillTracks(m.attempts[n], n, s, s');
    }
  }

  lemma NewProcess(m: Memory, s: State, m': Memory, s': State)
    requires m'.attempts == map[] && m'.process.boots == m.process.boots + 1
    ensures Recorded(m', s') && Keeps(m, s, m', s')
  {
  }

  /** One more attempt is remembered. */
  lemma OneRemembered(m: Memory, s: State, m': Memory, s': State, n: Id, token: Id, rt: Runtime)
    requires Recorded(m, s) && Onward(s, s') && m'.process == m.process && (forall k <- m.jobs :: k in m'.jobs)
    requires n in m'.attempts && m'.attempts == m.attempts[n := m'.attempts[n]] && s.ledger.supply <= n
    requires Inv(s', rt) && m'.attempts[n].nativeId == n && m'.attempts[n].id == token && m'.attempts[n].token == token
    requires OwnerOf(s'.db, n).Some? && OwnerOf(s'.db, n).value.token == token && token !in s'.ledger.abandoned
    ensures Recorded(m', s') && Keeps(m, s, m', s')
  {
    OwnerTracked(s', n, token, rt);
    hide Inv, Onward, OwnerOf;
    assert n !in m.attempts;
    hide Tracks;
    forall k | k in m.attempts ensures Tracks(m.attempts[k], k, s') {
      StillTracks(m.attempts[k], k, s, s');
    }
  }

  lemma OwnerTracked(s: State, n: Id, token: Id, rt: Runtime)
    requires Inv(s, rt) && OwnerOf(s.db, n).Some? && OwnerOf(s.db, n).value.token == token
    ensures n < s.ledger.supply && token < s.ledger.supply && token in s.ledger.issued
    ensures forall k <- s.db.rows :: s.db.rows[k].nativeId == n <==> s.db.rows[k].token == token
  {
    OwnerToken(s, n, rt);
  }

  /** The rest of the attempts is remembered. */
  lemma OneForgotten(m: Memory, s: State, m': Memory, s': State, n: Id)
    requires Recorded(m, s) && Onward(s, s') && m'.process == m.process
    requires forall k <- m.jobs :: k in m'.jobs || k !in s'.db.ops
    requires m'.attempts == m.attempts - {n}
    requires n in m.attempts ==> m.attempts[n].token in s'.ledger.adopted || !HasRow(s'.db, m.attempts[n].token)
    ensures Recorded(m', s') && Keeps(m, s, m', s')
  {
    hide Tracks, Onward, HasRow;
    forall k | k in m'.attempts ensures Tracks(m'.attempts[k], k, s') {
      StillTracks(m.attempts[k], k, s, s');
    }
  }

  lemma AdoptedIsRecalled(m: Memory, s: State, m': Memory, s': State, row: Sandbox)
    requires Recorded(m, s) && Onward(s, s') && m'.process == m.process && m'.jobs == m.jobs
    requires m'.attempts == m.attempts - {row.nativeId} && row.id in s.db.rows && s.db.rows[row.id].nativeId == row.nativeId
    requires s.db.rows[row.id].token !in s.ledger.abandoned ==> s.db.rows[row.id].token in s'.ledger.adopted
    ensures Recorded(m', s') && Keeps(m, s, m', s')
  {
    if row.nativeId in m.attempts {
      assert Tracks(m.attempts[row.nativeId], row.nativeId, s);
    }
    hide Recorded, Onward, Keeps;
    OneForgotten(m, s, m', s', row.nativeId);
  }

  lemma GoneIsRecalled(m: Memory, s: State, m': Memory, s': State, n: Id, rt: Runtime)
    requires Recorded(m, s) && Onward(s, s') && m'.process == m.process && (forall k <- m.jobs :: k in m'.jobs)
    requires m'.attempts == m.attempts - {n} && Inv(s, rt) && OwnerOf(s.db, n).Some? && RowOf(s'.db, OwnerOf(s.db, n).value.token).None?
    ensures Recorded(m', s') && Keeps(m, s, m', s')
  {
    OwnerToken(s, n, rt);
    hide Inv, OwnerOf, Onward, Keeps;
    if n in m.attempts {
      assert Tracks(m.attempts[n], n, s);
    }
    hide Recorded, Tracks;
    OneForgotten(m, s, m', s', n);
  }

  /** A job is finished, and its attempt was not remembered. */
  lemma JobIsDone(m: Memory, s: State, m': Memory, s': State, id: Id)
    requires Recorded(m, s) && Onward(s, s') && m'.process == m.process && m'.attempts == m.attempts
    requires m'.jobs == m.jobs || (m'.jobs == m.jobs - {id} && id !in s'.db.ops)
    ensures Recorded(m', s') && Keeps(m, s, m', s')
  {
    hide Tracks, Onward;
    forall n | n in m'.attempts ensures Tracks(m'.attempts[n], n, s') {
      StillTracks(m.attempts[n], n, s, s');
    }
  }

  /** A job has undone the attempt of the intent number id. */
  lemma UndoIsRecalled(m: Memory, s: State, m': Memory, s': State, id: Id, rt: Runtime)
    requires Recorded(m, s) && Onward(s, s') && m'.process == m.process && Inv(s, rt) && id in s.db.ops && Undoing(s.db.ops[id].kind)
    requires m'.jobs == m.jobs || (m'.jobs == m.jobs - {id} && id !in s'.db.ops)
    requires m'.attempts == m.attempts - {s.db.ops[id].nativeId}
    requires forall k <- s'.db.rows :: s'.db.rows[k].token != s.db.ops[id].token
    ensures Recorded(m', s') && Keeps(m, s, m', s')
  {
    var op := s.db.ops[id];
    var n := op.nativeId;
    if n in m.attempts && HasRow(s'.db, m.attempts[n].token) {
      var k :| k in s'.db.rows && s'.db.rows[k].token == m.attempts[n].token;
      assert Tracks(m.attempts[n], n, s);
      assert k in s.db.rows && s.db.rows[k].token == m.attempts[n].token by { hide Fate; }
      assert Touches(op, s.db.rows[k]) && Bound(op, s.db.rows[k]) by { InvParts(s, rt); }
      assert false;
    }
    hide Inv, Recorded, Onward, Keeps;
    OneForgotten(m, s, m', s', n);
  }

  /******* Events *******/

  /** The native identities whose owners somebody asked to remove. */
  function Removals(events: seq<Event>): set<Id> {
    set i | 0 <= i < |events| && (events[i].RemoveEvent? || events[i].DiscardEvent?) :: events[i].native
  }

  lemma RemovalsNone()
    ensures Removals([]) == {}
  {
  }

  lemma RemovalsOne(event: Event)
    ensures Removals([event]) == if event.RemoveEvent? || event.DiscardEvent? then {event.native} else {}
  {
    assert [event][0] == event;
  }

  lemma RemovalsNext(events: seq<Event>, i: nat)
    requires i < |events|
    ensures Removals(events[..i + 1]) == Removals(events[..i]) + Removals([events[i]])
  {
    RemovalsOne(events[i]);
    var some, more := events[..i], events[..i + 1];
    forall n | n in Removals(more) ensures n in Removals(some) + Removals([events[i]]) {
      var j :| 0 <= j < |more| && (more[j].RemoveEvent? || more[j].DiscardEvent?) && more[j].native == n;
      if j < i {
        assert some[j] == more[j];
      }
    }
    forall n | n in Removals(some) + Removals([events[i]]) ensures n in Removals(more) {
      if n in Removals(some) {
        var j :| 0 <= j < |some| && (some[j].RemoveEvent? || some[j].DiscardEvent?) && some[j].native == n;
        assert more[j] == some[j];
      } else {
        assert more[i] == events[i];
      }
    }
  }

  class Client {
    const repo: Repository
    const daemon: Daemon
    const calm: bool  // the environment leaves containers alone
    var now: int
    var alive: bool
    var process: Process
    var timers: Clock
    var serial: nat
    var attempts: map<Id, Operation>
    var jobs: map<Id, Operation>
    var ledger: Ledger
    ghost var faults: nat

    ghost function S(): State
      reads this, repo, daemon
    {
      State(repo.T(), daemon.containers, ledger)
    }

    ghost predicate Valid()
      reads this, repo, daemon
    {
      && repo.runtime == Docker
      && Inv(S(), Docker)
      && NoTrespass(daemon.log)
      && (forall k <- jobs :: jobs[k].id == k)
      && (process.closing ==> process.quit)
    }

    function M(): Memory
      reads this
    {
      Memory(attempts, jobs, process)
    }

    /** Nothing is forgotten: attempts stay as they are, and jobs are only added. */
    twostate predicate OnlyAddsJobs()
      reads this
    {
      attempts == old(attempts) && process == old(process) && forall k <- old(jobs) :: k in jobs
    }

    constructor (calm: bool)
      ensures Valid() && fresh(repo) && fresh(daemon) && alive && !process.closing
      ensures repo.T() == Tables(map[], map[]) && daemon.containers == map[] && daemon.log == []
    {
      repo := new Repository(Docker);
      daemon := new Daemon();
      this.calm := calm;
      now, alive, process := 0, true, Process(0, false, false, false);
      timers, serial, attempts, jobs := map[], 0, map[], map[];
      ledger := Ledger({}, {}, {}, {}, 1);
      faults := 0;
      new;
      hide Inv;
      Initially(Docker);
      assert S() == State(Tables(map[], map[]), map[], Ledger({}, {}, {}, {}, 1));
    }

    /** A new identity. */
    method NewId() returns (id: Id)
      requires Valid()
      modifies this`ledger
      ensures Valid() && EnvStep(old(S()), S())
      ensures id == old(ledger.supply) && id != NONE && ledger == old(ledger).(supply := id + 1)
      ensures id !in repo.ops && id !in repo.rows && id !in daemon.containers
    {
      hide Inv;
      InvParts(S(), Docker);
      id := ledger.supply;
      ledger := ledger.(supply := id + 1);
      EnvKeeps(old(S()), S(), Docker);
    }

    /** The environment acts: containers exit or disappear, somebody else adds one. */
    method Drift()
      requires Valid()
      modifies this`ledger, daemon`containers
      ensures Valid() && EnvStep(old(S()), S())
    {
      hide Inv;
      var exits: set<Id>, restarting: set<Id>, gone: set<Id> := *, *, *;
      var some: bool, up: bool, name: nat, owner: nat, ports: Ports := *, *, *, *, *;
      var n := ledger.supply;
      var c := Container(n + 1 + name, if owner == 0 then NONE else n + owner, up, false, ports);
      var other := if some then Option.Some((n, c)) else Option.None;
      daemon.Drift(exits, restarting, gone, other);
      ledger := ledger.(supply := n + 2 + name + owner);
      assert Known(old(S())) by {
        InvParts(old(S()), Docker);
      }
      EnvKeeps(old(S()), S(), Docker);
    }

    /** Before each call: time passes, the environment acts, and the fate of the call is decided. */
    method Pass() returns (f: Fault)
      requires Valid()
      modifies this`now, this`alive, this`ledger, this`faults, daemon`containers
      ensures Valid() && EnvStep(old(S()), S()) && old(now) <= now
      ensures old(ledger.supply) <= ledger.supply && ledger == old(ledger).(supply := ledger.supply)
      ensures f.Clean? ==> alive
      ensures !old(alive) ==> f.Fail? && !alive
      ensures faults == old(faults) + if f.Clean? then 0 else 1
      ensures calm ==> S() == old(S())
    {
      hide Inv;
      var step: nat, dies: bool, lost: bool, clean: bool := *, *, *, *;
      now := now + step;
      if !calm {
        Drift();
      }
      if !alive {
        f := Fail;
      } else {
        alive := !dies;
        f := if clean && !dies then Clean else if lost then Lost else Fail;
      }
      faults := faults + if f.Clean? then 0 else 1;
    }

    /** The durable deadline of the sandbox that op names. */
    ghost function Due(op: Operation): Option<int>
      reads this, repo
    {
      if op.publicId in repo.rows then repo.rows[op.publicId].expiresAt else None
    }

    method CancelTimer(n: Id)
      modifies this`timers
      ensures timers == old(timers) - {n}
    {
      timers := timers - {n};
    }

    /** The timer of n is replaced. */
    method ScheduleDeadline(n: Id, deadline: int, delay: int)
      requires deadline <= now + Max(delay, 0) && delay <= Max(deadline - now, RETRY_DELAY)
      modifies this`timers, this`serial
      ensures n in timers && timers[n] == TimerEntry(old(serial), deadline, now + Max(delay, 0), now) && old(serial) < serial
      ensures timers - {n} == old(timers) - {n}
    {
      CancelTimer(n);
      timers := timers[n := TimerEntry(serial, deadline, now + Max(delay, 0), now)];
      serial := serial + 1;
    }

    /******* One call of an attempt at an intent *******/

    /** Whatever happens in between, nothing runs without a timer afterwards. */
    twostate predicate KeepsTime()
      reads this, repo, daemon
    {
      old(Ticks(S(), timers)) ==> Ticks(S(), timers)
    }

    /** Before a call made for op. */
    method PassFor(op: Operation, ghost n: Option<Id>, ghost s0: State, ghost led: bool) returns (f: Fault)
      requires Valid() && During(s0, S(), op, Docker, led) && (led ==> calm)
      modifies this`now, this`alive, this`ledger, this`faults, daemon`containers
      ensures Valid() && During(s0, S(), op, Docker, led) && old(now) <= now
      ensures f.Clean? ==> alive
      ensures faults == old(faults) + if f.Clean? then 0 else 1
      ensures calm ==> S() == old(S())
      ensures At(old(S()), op.token, n) ==> At(S(), op.token, n)
      ensures Stopped(old(daemon.containers), op.token) ==> Stopped(daemon.containers, op.token)
      ensures Absent(old(daemon.containers), op.token) ==> Absent(daemon.containers, op.token)
    {
      hide Inv, At, EnvStep, During, Stopped, Absent;
      f := Pass();
      Passing(s0, old(S()), S(), op, Docker, led, n);
    }

    /** Remove the container of op, wherever it is known to be. */
    method RemoveFor(op: Operation, n: Id, ghost s0: State, ghost led: bool) returns (r: Result<()>)
      requires Valid() && During(s0, S(), op, Docker, led) && (led ==> calm) && At(S(), op.token, Some(n)) && (led ==> Undoing(op.kind))
      modifies this`now, this`alive, this`ledger, this`faults, daemon
      ensures Valid() && During(s0, S(), op, Docker, led) && old(now) <= now
      ensures r.Ok? || r.error.NotFound? ==> Absent(daemon.containers, op.token)
      ensures old(faults) <= faults && (faults == old(faults) ==> r.Ok? || r.error.NotFound?)
      ensures ActedFor(old(daemon.log), daemon.log, op, old(now), now, old(Due(op)))
      ensures Stopped(old(daemon.containers), op.token) ==> Stopped(daemon.containers, op.token)
    {
      hide Inv, At, EnvStep, During, Stopped, Absent;
      var f := PassFor(op, Some(n), s0, led);
      ghost var s := S();
      if n in daemon.containers {
        Label(s, op.token, n);
      }
      r := daemon.Remove(n, f, op, now, Due(op));
      Halting(s0, s, S(), op, Docker, led, n, true);
    }

    /** Stop the container of op. */
    method StopFor(op: Operation, n: Id, ghost s0: State, ghost led: bool) returns (r: Result<()>)
      requires Valid() && During(s0, S(), op, Docker, led) && (led ==> calm) && At(S(), op.token, Some(n)) && (led ==> op.kind.Stop?)
      modifies this`now, this`alive, this`ledger, this`faults, daemon
      ensures Valid() && During(s0, S(), op, Docker, led) && old(now) <= now
      ensures r.Ok? || r.error.NotFound? ==> Stopped(daemon.containers, op.token)
      ensures old(faults) <= faults && (faults == old(faults) ==> r.Ok? || r.error.NotFound?)
      ensures calm && faults == old(faults) && n in old(daemon.containers) ==> old(daemon.log) < daemon.log
      ensures ActedFor(old(daemon.log), daemon.log, op, old(now), now, old(Due(op)))
      ensures Stopped(old(daemon.containers), op.token) ==> Stopped(daemon.containers, op.token)
    {
      hide Inv, At, EnvStep, During, Stopped, Absent;
      var f := PassFor(op, Some(n), s0, led);
      ghost var s := S();
      if n in daemon.containers {
        Label(s, op.token, n);
      }
      r := daemon.Stop(n, f, op, now, Due(op));
      Halting(s0, s, S(), op, Docker, led, n, false);
    }

    /** Retire op with the state that was observed. */
    method CompleteFor(op: Operation, ports: Option<Ports>, deadline: Option<int>, ghost s0: State, ghost led: bool) returns (r: Result<()>)
      requires Valid() && During(s0, S(), op, Docker, led) && (led ==> calm) && !Undoing(op.kind)
      requires Ends(op, deadline) && (deadline.None? ==> Stopped(daemon.containers, op.token))
      requires led ==> CompleteTx(repo.T(), op, ports, deadline).Ok? ==>
                          S().(db := CompleteTx(repo.T(), op, ports, deadline).value.after) == Settled(S(), op)
      modifies this`now, this`alive, this`ledger, this`faults, daemon`containers, repo
      ensures Valid() && old(now) <= now && (During(s0, S(), op, Docker, led) || After(s0, S(), op, Docker, led))
      ensures r.Ok? ==> After(s0, S(), op, Docker, led)
      ensures r.Ok? ==> op.publicId in old(repo.rows) && op.publicId in repo.rows
                        && repo.rows[op.publicId] == Observed(old(repo.rows)[op.publicId], op.runtime, ports, deadline)
                        && repo.rows[op.publicId].token == op.token
      ensures Stopped(old(daemon.containers), op.token) ==> Stopped(daemon.containers, op.token)
      ensures calm ==> daemon.containers == old(daemon.containers)
      ensures old(faults) <= faults && (faults == old(faults) ==> r.Ok?)
    {
      hide Inv, At, EnvStep, During, After, Stopped, Absent, Settled;
      var f := PassFor(op, None, s0, led);
      ghost var s := S();
      r := repo.CompleteOperation(op, ports, deadline, f);
      Completing(s0, s, S(), op, ports, deadline, Docker, led, f, r);
    }

    /** Delete the row and the intent of an attempt whose container is gone. */
    method DeleteFor(op: Operation, known: Operation, ghost s0: State, ghost led: bool) returns (r: Result<()>)
      requires Valid() && During(s0, S(), op, Docker, led) && (led ==> calm) && Undoing(op.kind)
      requires Absent(daemon.containers, op.token) && Names(repo.T(), known)
      requires known.id == op.id && known.token == op.token && known.runtime == op.runtime
      modifies this`now, this`alive, this`ledger, this`faults, daemon`containers, repo
      ensures Valid() && old(now) <= now && (During(s0, S(), op, Docker, led) || After(s0, S(), op, Docker, led))
      ensures r.Ok? ==> After(s0, S(), op, Docker, led) && RowOf(repo.T(), op.token).None?
      ensures Absent(daemon.containers, op.token)
      ensures old(faults) <= faults && (faults == old(faults) ==> r.Ok?)
      ensures Stopped(old(daemon.containers), op.token) ==> Stopped(daemon.containers, op.token)
    {
      hide Inv, At, EnvStep, During, After, Stopped, Absent, Names;
      var f := PassFor(op, None, s0, led);
      ghost var s := S();
      r := repo.DeleteOperation(known, f);
      Deleting(s0, s, S(), op, known, Docker, led, f, r);
    }

    /******* recovery.go *******/

    /** The end of a recovery that undoes an attempt: remove the container, then row and intent. */
    method FinishUndo(op: Operation, known: Operation, info: Observation, ghost s0: State) returns (r: Result<()>)
      requires Valid() && During(s0, S(), op, Docker, calm) && Undoing(op.kind)
      requires known == op.(nativeId := known.nativeId, publicId := known.publicId)
      requires !info.Failed? && At(S(), op.token, Seen(info)) && Names(repo.T(), known)
      modifies this, repo, daemon
      ensures old(now) <= now
      ensures Valid() && unchanged(this`jobs, this`attempts, this`process)
      ensures During(s0, S(), op, Docker, calm) || After(s0, S(), op, Docker, calm)
      ensures r.Ok? ==> After(s0, S(), op, Docker, calm) && timers == old(timers) - {known.nativeId} && RowOf(repo.T(), op.token).None?
      ensures r.Err? ==> timers == old(timers)
      ensures old(faults) <= faults && (faults == old(faults) ==> r.Ok?)
      ensures ActedFor(old(daemon.log), daemon.log, op, old(now), now, old(Due(op)))
      ensures Stopped(old(daemon.containers), op.token) ==> Stopped(daemon.containers, op.token)
    {
      hide Inv, At, EnvStep, During, After, Absent, Names;
      if info.Found? {
        var removed := RemoveFor(op, info.id, s0, calm);
        if removed.Err? && !removed.error.NotFound? {
          return Err(Deferred);
        }
      } else {
        Nowhere(S(), op.token);
      }
      r := DeleteFor(op, known, s0, calm);
      if r.Ok? {
        CancelTimer(known.nativeId);
      }
    }

    /** The end of a recovered stop: complete it only once the container is known not to run. */
    method FinishStop(op: Operation, info: Observation, ghost s0: State) returns (r: Result<()>)
      requires Valid() && During(s0, S(), op, Docker, calm) && op.kind.Stop?
      requires !info.Failed? && At(S(), op.token, Seen(info)) && (info.Found? ==> info.id == op.nativeId)
      requires (info.Found? ==> !info.info.running) ==> Stopped(daemon.containers, op.token)
      modifies this, repo, daemon
      ensures old(now) <= now
      ensures Valid() && unchanged(this`jobs, this`attempts, this`process)
      ensures During(s0, S(), op, Docker, calm) || After(s0, S(), op, Docker, calm)
      ensures r.Ok? ==> After(s0, S(), op, Docker, calm) && timers == old(timers) - {op.nativeId} && Stopped(daemon.containers, op.token)
                        && Observes(op) && repo.rows[op.publicId].expiresAt.None?
      ensures r.Err? ==> timers == old(timers)
      ensures old(faults) <= faults && (faults == old(faults) ==> r.Ok?)
      ensures ActedFor(old(daemon.log), daemon.log, op, old(now), now, old(Due(op)))
      ensures Stopped(old(daemon.containers), op.token) ==> Stopped(daemon.containers, op.token)
      ensures !(info.Found? && info.info.running) ==> daemon.log == old(daemon.log)
    {
      hide Inv, At, EnvStep, During, After, Stopped, Current, Settled, CompleteTx;
      if info.Found? && info.info.running {
        var stopped := StopFor(op, info.id, s0, calm);
        if stopped.Err? && !stopped.error.NotFound? {
          return Err(Deferred);
        }
      }
      r := RecordStop(op, s0);
    }

    /** The end of a recovered start or restart: it is observed, never repeated. */
    method FinishStart(op: Operation, info: Observation, ghost s0: State) returns (r: Result<()>)
      requires Valid() && During(s0, S(), op, Docker, calm) && (op.kind.Start? || op.kind.Restart?) && op.deadline.Some?
      requires !info.Failed?
      requires (info.Found? ==> !info.info.running) ==> Stopped(daemon.containers, op.token)
      requires calm ==> Current(daemon.containers, op.token, info)
      modifies this, repo, daemon
      ensures old(now) <= now
      ensures Valid() && unchanged(this`jobs, this`attempts, this`process, daemon`log)
      ensures During(s0, S(), op, Docker, calm) || After(s0, S(), op, Docker, calm)
      ensures r.Ok? ==> After(s0, S(), op, Docker, calm) && timers - {op.nativeId} == old(timers) - {op.nativeId}
      ensures r.Ok? ==> Observes(op)
                        && repo.rows[op.publicId].expiresAt == (if info.Found? && info.info.running then op.deadline else None)
                        && repo.rows[op.publicId].ports == (if info.Found? then info.info.ports else map[])
      ensures r.Ok? ==> if info.Found? && info.info.running
                        then op.nativeId in timers && timers[op.nativeId].expiresAt == op.deadline.value
                        else op.nativeId !in timers
      ensures r.Err? ==> timers == old(timers)
      ensures old(faults) <= faults && (faults == old(faults) ==> r.Ok?)
      ensures Stopped(old(daemon.containers), op.token) ==> Stopped(daemon.containers, op.token)
      ensures r.Ok? && op.nativeId !in timers ==> Stopped(daemon.containers, op.token)
    {
      hide Inv, At, EnvStep, During, After, Stopped, Current, Settled, CompleteTx;
      var deadline := op.deadline;
      var ports := map[];
      if info.Missing? {
        deadline := None;
      } else {
        if !info.info.running {
          deadline := None;
        }
        ports := info.info.ports;
      }
      if calm {
        StartCompletes(s0, S(), op, info, Docker, calm);
      }
      r := CompleteFor(op, Some(ports), deadline, s0, calm);
      if r.Err? {
        return;
      }
      if deadline.Some? {
        ScheduleDeadline(op.nativeId, deadline.value, deadline.value - now);
      } else {
        CancelTimer(op.nativeId);
      }
    }

    /** What a recovery knows before it acts: the identities of op as far as a row or the container tells
        them, and one inspection. */
    ghost predicate Knows(op: Operation, known: Operation, info: Observation)
      reads this, repo, daemon
    {
      && known == op.(nativeId := known.nativeId, publicId := known.publicId)
      && !info.Failed? && At(S(), op.token, Seen(info)) && (calm ==> Current(daemon.containers, op.token, info))
      && (Undoing(op.kind) ==> Names(repo.T(), known)) && Clear(repo.T(), op.token, known.nativeId)
      && (op.nativeId != NONE ==> known == op)
      && (!Undoing(op.kind) ==> known == op && (info.Found? ==> info.id == op.nativeId)
                                && ((info.Found? ==> !info.info.running) ==> Stopped(daemon.containers, op.token)))
    }

    /** Look for a creation whose native identity was never recorded: through its row, or by exact name. */
    method LookUnbound(op: Operation, ghost s0: State) returns (r: Result<(Operation, Observation)>)
      requires Valid() && During(s0, S(), op, Docker, calm) && op.kind.Create? && op.nativeId == NONE
      modifies this`now, this`alive, this`ledger, this`faults, daemon`containers
      ensures Valid() && During(s0, S(), op, Docker, calm) && old(now) <= now && (calm ==> S() == old(S()))
      ensures old(faults) <= faults && (faults == old(faults) ==> r.Ok?)
      ensures r.Ok? ==> Knows(op, r.value.0, r.value.1)
      ensures r.Ok? && r.value.1.Found? ==>
        var (known, info) := r.value;
        && info.info.owner == op.token
        && (known.nativeId == info.id || (known == op && OwnerOf(repo.T(), info.id).None?
              && Names(repo.T(), op.(nativeId := info.id))))
      ensures Stopped(old(daemon.containers), op.token) ==> Stopped(daemon.containers, op.token)
      ensures r.Ok? && r.value.1.Found? ==> Clear(repo.T(), op.token, r.value.1.id)
    {
      hide Inv, At, Clear, EnvStep, During, Stopped, Absent, Names, Current, RowsOk, Consistent, NoTrespass, OwnerOf, Holds;
      DuringMeans(s0, S(), op, Docker, calm);
      var f := PassFor(op, None, s0, calm);
      if !f.Clean? {
        return Err(Store);
      }
      DuringMeans(s0, S(), op, Docker, calm);
      var row := repo.FindByAttempt(op.runtime, op.token);
      NamesOf(S(), op, Docker);
      f := PassFor(op, None, s0, calm);
      if !f.Clean? {
        return Err(Deferred);
      }
      DuringMeans(s0, S(), op, Docker, calm);
      if row.Some? {
        if op.publicId != NONE && row.value.id != op.publicId {
          return Err(Mismatch);
        }
        var known := op.(nativeId := row.value.RuntimeId(), publicId := row.value.id);
        var info := daemon.Inspect(known.nativeId, f);
        RowSightIsTrue(S(), op, row.value, info, Docker);
        ClearRow(S(), row.value.id, Docker);
        return Ok((known, info));
      }
      var info := daemon.InspectName(op.nativeName, f);
      SightIsTrue(S(), op, info, Docker);
      ClearIntent(S(), op, Docker);
      assert op.(nativeId := op.nativeId, publicId := op.publicId) == op;
      if info.Found? {
        NoOwner(S(), op, info.id, Docker);
        ClearSight(S(), info.id, Docker);
      }
      return Ok((op, info));
    }

    method Look(op: Operation, ghost s0: State) returns (r: Result<(Operation, Observation)>)
      requires Valid() && During(s0, S(), op, Docker, calm)
      modifies this`now, this`alive, this`ledger, this`faults, daemon`containers
      ensures Valid() && During(s0, S(), op, Docker, calm) && old(now) <= now && (calm ==> S() == old(S()))
      ensures old(faults) <= faults && (faults == old(faults) ==> r.Ok?)
      ensures r.Ok? ==> Knows(op, r.value.0, r.value.1) && (r.value.1.Found? ==> r.value.1.id == r.value.0.nativeId)
      ensures Stopped(old(daemon.containers), op.token) ==> Stopped(daemon.containers, op.token)
    {
      hide Inv, At, EnvStep, During, Stopped, Absent, Names, Current, Clear;
      var known, info := op, Failed;
      if op.kind.Create? && op.nativeId == NONE {
        var seen := LookUnbound(op, s0);
        if seen.Err? {
          return seen;
        }
        known, info := seen.value.0, seen.value.1;
      } else {
        var f := PassFor(op, None, s0, calm);
        DuringMeans(s0, S(), op, Docker, calm);
        info := daemon.Inspect(op.nativeId, f);
        if info.Failed? {
          return Err(Deferred);
        }
        SightIsTrue(S(), op, info, Docker);
        NamesOf(S(), op, Docker);
        ClearIntent(S(), op, Docker);
      }
      if info.Found? {
        if op.token != NONE && info.info.owner != op.token {
          return Err(Mismatch);
        }
        if known.nativeId != NONE && info.id != known.nativeId {
          return Err(Mismatch);
        }
        if known.nativeId == NONE {
          known := known.(nativeId := info.id);
          if known.publicId == NONE {
            var f := PassFor(op, Some(info.id), s0, calm);
            if !f.Clean? {
              return Err(Store);
            }
            DuringMeans(s0, S(), op, Docker, calm);
            var row := repo.FindByNativeId(known.nativeId);
            if row.Some? {
              if row.value.token != op.token || row.value.runtime != op.runtime {
                return Err(Mismatch);
              }
              known := known.(publicId := row.value.id);
            }
          }
        }
      }
      return Ok((known, info));
    }

    method Reconcile(op: Operation) returns (r: Result<()>)
      requires Valid() && (op.id in repo.ops ==> repo.ops[op.id] == op)
      modifies this, repo, daemon
      ensures Valid() && unchanged(this`jobs, this`attempts, this`process) && old(now) <= now
      ensures r.Ok? ==> op.id in old(repo.ops) && After(old(S()), S(), op, Docker, calm) && TimersFollow(old(timers), op)
      ensures op.id in old(repo.ops) ==> During(old(S()), S(), op, Docker, calm) || After(old(S()), S(), op, Docker, calm)
      ensures op.id !in old(repo.ops) ==> EnvStep(old(S()), S())
      ensures r.Err? ==> timers == old(timers)
      ensures old(faults) <= faults && (faults == old(faults) && op.id in old(repo.ops) ==> r.Ok? || r.error == Deferred)
      ensures faults == old(faults) && op.id in old(repo.ops) && calm && Steady(old(daemon.containers), op.token) ==> r.Ok?
      ensures ActedFor(old(daemon.log), daemon.log, op, old(now), now, old(Due(op)))
      ensures op.id in old(repo.ops) && Stopped(old(daemon.containers), op.token) ==> Stopped(daemon.containers, op.token)
      ensures OthersTimed(repo.T(), op.token, old(timers), timers)
      ensures r.Err? && faults == old(faults) && op.id in old(repo.ops) ==> During(old(S()), S(), op, Docker, calm)
      ensures r.Ok? && !Undoing(op.kind) ==> op.nativeId in timers || Stopped(daemon.containers, op.token)
      ensures KeepsTime()
    {
      hide Inv, EnvStep, During, After, Stopped, OthersTimed, Ticks;
      ghost var s0, was := S(), timers;
      r := ReconcileStored(op);
      SameTimed(repo.T(), op.token, was);
      if Ticks(s0, was) {
        if op.id in s0.db.ops {
          ReconciledTicks(s0, S(), op, was, timers, calm);
        } else {
          EnvTicks(s0, S(), was, timers, Docker);
        }
      }
    }

    /** A recovery starts nothing; it drops a timer only when the container is stopped or the row gone. */
    lemma ReconciledTicks(s: State, s': State, op: Operation, was: Clock, timers: Clock, led: bool)
      requires Inv(s, Docker) && Holds(s, op) && Ticks(s, was) && OthersTimed(s'.db, op.token, was, timers)
      requires During(s, s', op, Docker, led) || After(s, s', op, Docker, led)
      requires Stopped(s.native, op.token) ==> Stopped(s'.native, op.token)
      requires timers == was || (After(s, s', op, Docker, led) && (Undoing(op.kind) || op.nativeId in timers || Stopped(s'.native, op.token)))
      ensures Ticks(s', timers)
    {
      ReconciledRows(s, s', op, led);
      hide Inv, Stopped, Settled, OnlyAttempt, OthersTimed;
      forall k | k in s'.db.rows && s'.db.rows[k].token == op.token ensures TicksFor(s', s'.db.rows[k], timers) {
        assert TicksFor(s, s.db.rows[k], was);
      }
      hide Ticks, TicksFor;
      OthersTick(s, s', op.token, was, timers, Docker);
    }

    lemma ReconciledRows(s: State, s': State, op: Operation, led: bool)
      requires Inv(s, Docker) && Holds(s, op) && (During(s, s', op, Docker, led) || After(s, s', op, Docker, led))
      ensures Inv(s', Docker) && OnlyAttempt(s, s', op.token) && Kept(s.db, s'.db) && s.ledger.abandoned <= s'.ledger.abandoned
      ensures After(s, s', op, Docker, led) && Undoing(op.kind) ==> forall k <- s'.db.rows :: s'.db.rows[k].token != op.token
      ensures !op.kind.Create? ==> forall k <- s.db.rows :: s.db.rows[k].token == op.token ==> s.db.rows[k].nativeId == op.nativeId
    {
      assert !op.kind.Create? ==> Names(s.db, op) by { NamesOf(s, op, Docker); StoredIsShaped(s, op, Docker); }
      hide Inv, Settled;
    }

    method ReconcileStored(op: Operation) returns (r: Result<()>)
      requires Valid() && (op.id in repo.ops ==> repo.ops[op.id] == op)
      modifies this, repo, daemon
      ensures Valid() && unchanged(this`jobs, this`attempts, this`process) && old(now) <= now
      ensures r.Ok? ==> op.id in old(repo.ops) && After(old(S()), S(), op, Docker, calm) && TimersFollow(old(timers), op)
      ensures op.id in old(repo.ops) ==> During(old(S()), S(), op, Docker, calm) || After(old(S()), S(), op, Docker, calm)
      ensures op.id !in old(repo.ops) ==> EnvStep(old(S()), S())
      ensures r.Err? ==> timers == old(timers)
      ensures old(faults) <= faults && (faults == old(faults) && op.id in old(repo.ops) ==> r.Ok? || r.error == Deferred)
      ensures faults == old(faults) && op.id in old(repo.ops) && calm && Steady(old(daemon.containers), op.token) ==> r.Ok?
      ensures ActedFor(old(daemon.log), daemon.log, op, old(now), now, old(Due(op)))
      ensures op.id in old(repo.ops) && Stopped(old(daemon.containers), op.token) ==> Stopped(daemon.containers, op.token)
      ensures r.Ok? ==> OthersTimed(repo.T(), op.token, old(timers), timers)
      ensures r.Err? && faults == old(faults) && op.id in old(repo.ops) ==> During(old(S()), S(), op, Docker, calm)
      ensures r.Ok? && !Undoing(op.kind) ==> op.nativeId in timers || Stopped(daemon.containers, op.token)
    {
      hide Inv, At, EnvStep, During, After, Stopped, Absent, Names, Current, Steady, Clear, OthersTimed, NoTrespass, RowsOk, Consistent, TimersFollow;
      ghost var s0 := S();
      var f := Pass();
      if op.id in repo.ops {
        Beginning(s0, op, Docker, calm);
        Passing(s0, s0, S(), op, Docker, calm, None);
        DuringMeans(s0, S(), op, Docker, calm);
        StoredIsValid(S(), op, Docker);
      }
      if !f.Clean? {
        return Err(Store);
      }
      if !WellShaped(op) {
        return Err(Invalid);
      }
      var valid := repo.ValidateOperation(op);
      if !valid {
        return Err(Mismatch);
      }
      var seen := Look(op, s0);
      if seen.Err? {
        return Err(seen.error);
      }
      var (known, info) := seen.value;
      if calm && Steady(daemon.containers, op.token) && info.Found? {
        SteadySight(daemon.containers, op.token, info);
      }
      if info.Found? && info.info.restarting {
        return Err(Deferred);
      }
      r := Resolve(op, known, info, s0);
    }

    predicate Observes(op: Operation)
      reads repo
    {
      op.publicId in repo.rows && repo.rows[op.publicId].token == op.token
    }

    /** The timers of one recovered container: none once it is stopped or gone, and the one for the durable
        deadline if it was seen running. */
    ghost predicate TimersFollow(old_: Clock, op: Operation)
      reads this, repo
    {
      match op.kind
      case Create => exists n :: timers == old_ - {n}
      case Delete => timers == old_ - {op.nativeId} && RowOf(repo.T(), op.token).None?
      case Stop => timers == old_ - {op.nativeId} && Observes(op) && repo.rows[op.publicId].expiresAt.None?
      case _ =>
        && timers - {op.nativeId} == old_ - {op.nativeId}
        && Observes(op)
        && repo.rows[op.publicId].expiresAt == (if op.nativeId in timers then Some(timers[op.nativeId].expiresAt) else None)
        && (op.nativeId in timers ==> op.deadline == Some(timers[op.nativeId].expiresAt))
    }

    lemma ClearEnds(s0: State, s: State, s': State, op: Operation, x: Id, led: bool)
      requires During(s0, s, op, Docker, led) && Clear(s.db, op.token, x)
      requires During(s0, s', op, Docker, led) || After(s0, s', op, Docker, led)
      ensures Clear(s'.db, op.token, x)
    {
      hide Inv, OnlyAttempt, Settled, Outcome;
    }

    /** The effect of recovery for each kind of intent. */
    method Resolve(op: Operation, known: Operation, info: Observation, ghost s0: State) returns (r: Result<()>)
      requires Valid() && During(s0, S(), op, Docker, calm) && WellShaped(op) && Knows(op, known, info)
      requires info.Found? ==> !info.info.restarting && info.id == known.nativeId
      modifies this, repo, daemon
      ensures Valid() && unchanged(this`jobs, this`attempts, this`process) && old(now) <= now
      ensures During(s0, S(), op, Docker, calm) || After(s0, S(), op, Docker, calm)
      ensures r.Ok? ==> After(s0, S(), op, Docker, calm) && TimersFollow(old(timers), op)
      ensures r.Err? ==> timers == old(timers)
      ensures old(faults) <= faults && (faults == old(faults) ==> r.Ok?)
      ensures ActedFor(old(daemon.log), daemon.log, op, old(now), now, old(Due(op)))
      ensures Stopped(old(daemon.containers), op.token) ==> Stopped(daemon.containers, op.token)
      ensures r.Ok? ==> OthersTimed(repo.T(), op.token, old(timers), timers)
      ensures r.Ok? && !Undoing(op.kind) ==> op.nativeId in timers || Stopped(daemon.containers, op.token)
    {
      hide Inv, At, EnvStep, During, After, Stopped, Absent, Names, Current, Clear, OthersTimed;
      ghost var s := S();
      match op.kind {
      case Create => r := FinishUndo(op, known, info, s0);
      case Delete =>
        r := FinishUndo(op, known, info, s0);
      case Stop => r := FinishStop(op, info, s0);
      case _ => r := FinishStart(op, info, s0);
      }
      ClearEnds(s0, s, S(), op, known.nativeId, calm);
      if r.Ok? {
        OneTimed(repo.T(), op.token, known.nativeId, old(timers), timers);
      }
    }

    /******* Retrying *******/

    /** Register a background retry, unless the queue was stopped; a key that is already registered keeps its job. */
    method QueueOperation(op: Operation)
      requires forall k <- jobs :: jobs[k].id == k
      modifies this`jobs
      ensures forall k <- jobs :: jobs[k].id == k
      ensures jobs == if process.quit || op.id in old(jobs) then old(jobs) else old(jobs)[op.id := op]
    {
      if !process.quit && op.id !in jobs {
        jobs := jobs[op.id := op];
      }
    }

    /** After an attempt: unless the intent is known to be retired, keep a timer for its deadline and a job. */
    method RetryOperation(op: Operation)
      requires Valid()
      modifies this`now, this`alive, this`ledger, this`faults, daemon`containers, this`timers, this`serial, this`jobs
      ensures Valid() && EnvStep(old(S()), S()) && old(now) <= now && (calm ==> S() == old(S())) && old(faults) <= faults
      ensures ledger == old(ledger).(supply := ledger.supply)
      ensures timers == old(timers) || (op.nativeId !in old(timers) && op.deadline.Some? && op.nativeId in timers
                && timers[op.nativeId].expiresAt == op.deadline.value && timers - {op.nativeId} == old(timers)
                && timers[op.nativeId].fireAt == Max(op.deadline.value, now + RETRY_DELAY))
      ensures !process.quit && op.id in repo.ops ==> op.id in jobs
      ensures forall k <- old(jobs) :: k in jobs
      ensures process.quit ==> jobs == old(jobs)
      ensures op.id !in repo.ops && faults == old(faults) ==> jobs == old(jobs) && timers == old(timers)
      ensures !process.closing && op.id in repo.ops && !op.kind.Create? && op.deadline.Some? ==> op.nativeId in timers
      ensures KeepsTime()
      ensures op.kind.Create? ==> timers == old(timers)
      ensures faults != old(faults) && !process.closing && !process.quit ==> op.id in jobs
    {
      hide Inv, EnvStep, Ticks;
      ghost var s0, was := S(), timers;
      if process.closing {
        EnvRefl(S(), Docker);
        return;
      }
      var f := Pass();
      if Ticks(s0, was) {
        EnvTicks(s0, S(), was, timers, Docker);
      }
      ghost var s1 := S();
      if f.Clean? && op.id !in repo.ops {
        return;
      }
      if !op.kind.Create? && op.deadline.Some? && op.nativeId !in timers {
        ScheduleDeadline(op.nativeId, op.deadline.value, Max(op.deadline.value - now, RETRY_DELAY));
        MoreTicks(s1, op.nativeId, was, timers);
      }
      QueueOperation(op);
    }

    /** The ownership check before a native mutation. */
    method CheckOwnership(op: Operation, ghost s0: State, ghost led: bool) returns (r: Result<()>)
      requires Valid() && During(s0, S(), op, Docker, led) && (led ==> calm) && !op.kind.Create?
      modifies this`now, this`alive, this`ledger, this`faults, daemon`containers
      ensures Valid() && During(s0, S(), op, Docker, led) && old(now) <= now
      ensures old(faults) <= faults && (faults == old(faults) ==> r.Ok?)
      ensures calm ==> S() == old(S())
      ensures r.Ok? ==> At(S(), op.token, Some(op.nativeId))
      ensures r.Err? ==> r.error.Deferred? || r.error.Mismatch?
      ensures Stopped(old(daemon.containers), op.token) ==> Stopped(daemon.containers, op.token)
    {
      hide Inv, At, EnvStep, During, Stopped, Absent, Current;
      if op.token == NONE {
        DuringMeans(s0, S(), op, Docker, led);
        return Ok(());
      }
      var f := PassFor(op, None, s0, led);
      DuringMeans(s0, S(), op, Docker, led);
      var info := daemon.Inspect(op.nativeId, f);
      if info.Failed? {
        return Err(Deferred);
      }
      SightIsTrue(S(), op, info, Docker);
      AtNative(S(), op, Docker);
      if info.Missing? {
        return Ok(());
      }
      if info.id != op.nativeId || info.info.owner != op.token {
        return Err(Mismatch);
      }
      return Ok(());
    }

    /** n has an owner with nothing pending; a deletion may also take over a pending creation or deletion. */
    ghost predicate Admits(t: Tables, n: Id, kind: Kind) {
      && OwnerOf(t, n).Some?
      && var pending := IntentOf(t, OwnerOf(t, n).value.token);
      pending.None? || (kind.Delete? && Undoing(pending.value.kind))
    }

    /** Record the intent of a mutation of the sandbox that owns n. */
    method BeginFor(n: Id, kind: Kind, deadline: Option<int>) returns (r: Result<Operation>)
      requires Valid() && !kind.Create? && ((kind.Start? || kind.Restart?) ==> deadline.Some?) && (kind.Stop? ==> deadline.None?)
      modifies this`now, this`alive, this`ledger, this`faults, daemon`containers, repo
      ensures Valid() && old(now) <= now && repo.rows == old(repo.rows) && old(faults) <= faults
      ensures BegunFor(old(S()), S(), n, kind, deadline, r)
      ensures calm ==> daemon.containers == old(daemon.containers)
      ensures faults == old(faults) && Admits(old(repo.T()), n, kind) ==> r.Ok?
      ensures faults == old(faults) && OwnerOf(old(repo.T()), n).None? ==> r == Err(NotFound)
    {
      hide Inv, EnvStep, BegunFor, BeginTx, OwnerOf, IntentOf, Admits, Consistent, RowsOk, OpsOk, Linked, Known;
      ghost var s0 := S();
      var newId := NewId();
      ghost var s1 := S();
      var f := Pass();
      ghost var s2 := S();
      EnvTrans(s0, s1, s2) by { InvParts(s0, Docker); }
      InvParts(s2, Docker);
      r := repo.BeginOperation(Docker, n, kind, deadline, newId, f);
      BeginsFor(s0, s2, S(), n, kind, deadline, newId, Docker, f, r);
      BeginRows(s2.db, Docker, n, kind, deadline, newId);
      EnvSame(s0, s1);
      EnvSame(s1, s2);
      if OwnerOf(s2.db, n).None? {
        BeginRefuses(s2.db, n, kind, deadline, newId);
      }
      if Admits(s0.db, n, kind) {
        BeginAdmits(s2.db, n, kind, deadline, newId);
      }
    }

    lemma BeginRefuses(t: Tables, n: Id, kind: Kind, deadline: Option<int>, newId: Id)
      requires OwnerOf(t, n).None?
      ensures BeginTx(t, Docker, n, kind, deadline, newId) == Err(NotFound)
    {
    }

    lemma BeginAdmits(t: Tables, n: Id, kind: Kind, deadline: Option<int>, newId: Id)
      requires Admits(t, n, kind) && newId !in t.ops
      ensures BeginTx(t, Docker, n, kind, deadline, newId).Ok?
    {
    }

    /** The end of a mutation, whatever became of its intent: it is retried in the background if it is still there. */
    method Conclude(op: Operation, n: Id, kind: Kind, deadline: Option<int>, ghost s0: State, ghost s1: State, ghost led: bool)
      requires Valid() && Inv(s0, Docker) && OwnerOf(s0.db, n).Some? && !kind.Create?
      requires BegunFor(s0, s1, n, kind, deadline, Ok(op))
      requires During(s1, S(), op, Docker, led) || After(s1, S(), op, Docker, led)
      modifies this`now, this`alive, this`ledger, this`faults, daemon`containers, this`timers, this`serial, this`jobs
      ensures Valid() && old(now) <= now && old(faults) <= faults && OnlyAddsJobs() && (process.quit ==> jobs == old(jobs))
      ensures OnlyOwner(s0, S(), n, kind.Delete?) && (calm ==> daemon.containers == old(daemon.containers))
      ensures After(s1, old(S()), op, Docker, led) ==> IntentOf(repo.T(), op.token).None?
      ensures Stopped(old(daemon.containers), op.token) ==> Stopped(daemon.containers, op.token)
      ensures Absent(old(daemon.containers), op.token) ==> Absent(daemon.containers, op.token)
      ensures timers == old(timers) || (n !in old(timers) && op.deadline.Some? && n in timers
                && timers[n].expiresAt == op.deadline.value && timers - {n} == old(timers))
      ensures !process.closing && During(s1, old(S()), op, Docker, led) && op.deadline.Some? ==> n in timers
    {
      hide Inv, EnvStep, During, After, Stopped, Absent, BegunFor, OnlyAttempt, OnlyOwner, OwnerOf, IntentOf, Kept, Holds, HasIntent, Moves;
      BegunMeans(s0, s1, n, kind, deadline, Ok(op));
      OwnerToken(s0, n, Docker);
      ghost var s2 := S();
      TokenStays(s1, s2, op, Docker, led);
      if During(s1, s2, op, Docker, led) {
        DuringMeans(s1, s2, op, Docker, led);
      }
      RetryOperation(op);
      EnvSame(s2, S());
      EndsFor(s0, s1, s2, S(), n, kind, deadline, op, Docker, led);
    }

    /******* lifecycle.go *******/

    /** Stop n: its container is known not to run, nothing is pending, and there is no deadline and no timer. */
    ghost predicate IsStopped(row: Sandbox)
      reads this, repo, daemon
    {
      && row.id in repo.rows && repo.rows[row.id] == row.(expiresAt := None)
      && IntentOf(repo.T(), row.token).None?
      && Stopped(daemon.containers, row.token)
      && row.nativeId !in timers
    }

    /** A stop is recorded, once the container is known not to run. */
    method RecordStop(op: Operation, ghost s0: State) returns (r: Result<()>)
      requires Valid() && During(s0, S(), op, Docker, calm) && op.kind.Stop? && Stopped(daemon.containers, op.token)
      modifies this`now, this`alive, this`ledger, this`faults, this`timers, daemon`containers, repo
      ensures Valid() && old(now) <= now && (During(s0, S(), op, Docker, calm) || After(s0, S(), op, Docker, calm))
      ensures Stopped(daemon.containers, op.token) && (r.Err? ==> r.error.Store? && timers == old(timers))
      ensures r.Ok? ==> After(s0, S(), op, Docker, calm) && timers == old(timers) - {op.nativeId}
      ensures r.Ok? ==> op.publicId in old(repo.rows) && op.publicId in repo.rows && repo.rows[op.publicId].token == op.token
                        && repo.rows[op.publicId] == Observed(old(repo.rows)[op.publicId], op.runtime, None, None)
      ensures old(faults) <= faults && (faults == old(faults) ==> r.Ok?)
      ensures Stopped(old(daemon.containers), op.token) ==> Stopped(daemon.containers, op.token)
    {
      hide Inv, EnvStep, During, After, Stopped, Settled, CompleteTx;
      if calm {
        StopCompletes(s0, S(), op, Docker, calm);
      }
      r := CompleteFor(op, None, None, s0, calm);
      if r.Err? {
        return Err(Store);
      }
      CancelTimer(op.nativeId);
    }

    predicate IsUp(n: Id)
      reads daemon
    {
      n in daemon.containers && daemon.containers[n].running
    }

    method StopBody(op: Operation, ghost s0: State) returns (r: Result<()>)
      requires Valid() && During(s0, S(), op, Docker, calm) && op.kind.Stop?
      modifies this`now, this`alive, this`ledger, this`faults, this`timers, daemon, repo
      ensures Valid() && old(now) <= now && old(faults) <= faults
      ensures During(s0, S(), op, Docker, calm) || After(s0, S(), op, Docker, calm)
      ensures Halted(r) ==> After(s0, S(), op, Docker, calm) && Stopped(daemon.containers, op.token) && timers == old(timers) - {op.nativeId}
      ensures Halted(r) ==> op.publicId in old(repo.rows) && op.publicId in repo.rows
                            && repo.rows[op.publicId] == Observed(old(repo.rows)[op.publicId], op.runtime, None, None)
      ensures !Halted(r) ==> timers == old(timers)
      ensures faults == old(faults) ==> Halted(r)
      ensures ActedFor(old(daemon.log), daemon.log, op, old(now), now, old(Due(op)))
      ensures Stopped(old(daemon.containers), op.token) ==> daemon.log == old(daemon.log)
      ensures calm && faults == old(faults) && old(IsUp(op.nativeId)) ==> old(daemon.log) < daemon.log
      ensures Stopped(old(daemon.containers), op.token) ==> Stopped(daemon.containers, op.token)
    {
      hide Inv, At, EnvStep, During, After, Stopped, Current, Absent, Holds, Consistent, RowsOk, NoTrespass, Known, Linked;
      var owned := CheckOwnership(op, s0, calm);
      if owned.Err? {
        return Err(Deferred);
      }
      var f := PassFor(op, Some(op.nativeId), s0, calm);
      DuringMeans(s0, S(), op, Docker, calm);
      var info := daemon.Inspect(op.nativeId, f);
      if info.Failed? {
        return Err(Deferred);
      }
      SightIsTrue(S(), op, info, Docker);
      if info.Missing? || !info.info.running {
        r := RecordStop(op, s0);
        return if r.Err? then r else Err(if info.Missing? then NotFound else AlreadyStopped);
      }
      assert !Stopped(daemon.containers, op.token) by {
        RunningIsNotStopped(S(), op.token, info.id);
      }
      var stopped := StopFor(op, op.nativeId, s0, calm);
      if stopped.Err? && !stopped.error.NotFound? {
        return Err(Deferred);
      }
      r := RecordStop(op, s0);
      return if r.Err? then r else stopped;
    }

    method StopLocked(n: Id) returns (r: Result<()>)
      requires Valid()
      modifies this, repo, daemon
      ensures Valid() && old(now) <= now && old(faults) <= faults && unchanged(this`attempts, this`process)
      ensures OnlyOwner(old(S()), S(), n, false)
      ensures OwnerOf(old(repo.T()), n).None? ==> r.Err? && daemon.log == old(daemon.log) && timers == old(timers) && repo.T() == old(repo.T())
      ensures Relaxed(old(repo.T()), repo.T())
      ensures OwnerOf(old(repo.T()), n).Some? ==>
        var row := OwnerOf(old(repo.T()), n).value;
        && (Halted(r) ==> IsStopped(row))
        && (Stopped(old(daemon.containers), row.token) ==> daemon.log == old(daemon.log))
        && StoppedFor(old(daemon.log), daemon.log, row, old(now), now)
        && (calm && faults == old(faults) && IntentOf(old(repo.T()), row.token).None? && old(IsUp(n)) ==> old(daemon.log) < daemon.log)
        && ((faults == old(faults) && IntentOf(old(repo.T()), row.token).None?) ==> Halted(r))
      ensures timers - {n} == old(timers) - {n}
      ensures forall k <- old(jobs) :: k in jobs
      ensures process.quit ==> jobs == old(jobs)
      ensures OwnerOf(old(repo.T()), n).Some? ==> timers == if Halted(r) then old(timers) - {n} else old(timers)
      ensures KeepsTime()
      ensures faults == old(faults) && OwnerOf(old(repo.T()), n).None? ==> r == Err(NotFound)
    {
      hide Inv, At, EnvStep, During, After, Stopped, BegunFor, OnlyAttempt, OnlyOwner, OwnerOf, IntentOf, Kept, Holds;
      hide NoTrespass, ActedFor, StoppedFor, Consistent, RowsOk, Relaxed, Ticks;
      ghost var s0, was := S(), timers;
      var begun := BeginFor(n, Kind.Stop, None);
      BegunMeans(s0, S(), n, Kind.Stop, None, begun);
      RelaxedSame(s0.db, repo.T());
      if begun.Err? {
        ActedNothing(daemon.log, OwnerOf(s0.db, n), old(now), now);
        OwnerStays(s0, S(), n, false, was, timers, Docker);
        return Err(begun.error);
      }
      ghost var at := now;
      OwnerToken(s0, n, Docker);
      r := StopBegun(begun.value, n, s0);
      SinceEarlier(daemon.log, old(daemon.log), OwnerOf(s0.db, n).value, old(now), at, now);
      OwnerStays(s0, S(), n, false, was, timers, Docker);
    }

    /** The stop of the owner of n, once its intent is recorded. */
    method StopBegun(op: Operation, n: Id, ghost s0: State) returns (r: Result<()>)
      requires Valid() && Inv(s0, Docker) && BegunFor(s0, S(), n, Kind.Stop, None, Ok(op)) && OwnerOf(s0.db, n).Some?
      modifies this, repo, daemon
      ensures Valid() && old(now) <= now && old(faults) <= faults && unchanged(this`attempts, this`process)
      ensures OnlyOwner(s0, S(), n, false) && Relaxed(s0.db, repo.T())
      ensures var row := OwnerOf(s0.db, n).value;
        && (Halted(r) ==> IsStopped(row))
        && (Stopped(old(daemon.containers), row.token) ==> daemon.log == old(daemon.log))
        && StoppedFor(old(daemon.log), daemon.log, row, old(now), now)
        && (faults == old(faults) ==> Halted(r))
        && (calm && faults == old(faults) && old(IsUp(n)) ==> old(daemon.log) < daemon.log)
      ensures timers - {n} == old(timers) - {n}
      ensures forall k <- old(jobs) :: k in jobs
      ensures process.quit ==> jobs == old(jobs)
      ensures timers == if Halted(r) then old(timers) - {n} else old(timers)
      ensures Stopped(old(daemon.containers), OwnerOf(s0.db, n).value.token) ==> Stopped(daemon.containers, OwnerOf(s0.db, n).value.token)
    {
      hide Inv, At, EnvStep, During, After, Stopped, BegunFor, OnlyAttempt, OnlyOwner, OwnerOf, IntentOf, Kept, Holds;
      hide NoTrespass, ActedFor, StoppedFor, Consistent, RowsOk, Relaxed, HasIntent, Moves;
      ghost var s1 := S();
      BegunMeans(s0, s1, n, Kind.Stop, None, Ok(op));
      Beginning(s1, op, Docker, calm);
      DuringMeans(s1, s1, op, Docker, calm);
      OwnerToken(s0, n, Docker);
      r := StopBody(op, s1);
      ghost var s2, last := S(), now;
      StopRelaxes(s1, s2, op, Docker, calm);
      RelaxedSame(s0.db, s1.db);
      RelaxedTrans(s0.db, s1.db, s2.db);
      Conclude(op, n, Kind.Stop, None, s0, s1, calm);
      ActedStops(old(daemon.log), daemon.log, op, old(now), last, OwnerOf(s0.db, n).value, old(now), now);
    }

    method Stop(n: Id) returns (r: Result<()>)
      requires Valid()
      modifies this, repo, daemon
      ensures Valid() && old(now) <= now && OnlyOwner(old(S()), S(), n, false) && old(daemon.log) <= daemon.log && OnlyAddsJobs()
      ensures OwnerOf(old(repo.T()), n).None? ==> r.Err?
      ensures faults == old(faults) && !process.closing && OwnerOf(old(repo.T()), n).Some? && Idle(old(S()), n) ==> Halted(r)
      ensures OwnerOf(old(repo.T()), n).Some? && !process.closing && Halted(r) ==> IsStopped(OwnerOf(old(repo.T()), n).value)
      ensures KeepsTime()
    {
      hide Inv, EnvStep, OnlyOwner, IsStopped, Ticks;
      if OwnerOf(repo.T(), n).Some? {
        IdleMeans(S(), n);
      }
      if process.closing {
        EnvIsOwner(S(), n, Docker);
        return Err(Closing);
      }
      r := StopLocked(n);
    }

    /** The sandbox runs, or ran, under this deadline: nothing is pending, and a timer is set for it. */
    ghost predicate IsStarted(row: Sandbox, deadline: int)
      reads this, repo, daemon
    {
      && row.id in repo.rows && repo.rows[row.id] == row.(expiresAt := Some(deadline), ports := repo.rows[row.id].ports)
      && IntentOf(repo.T(), row.token).None?
      && row.nativeId in timers && timers[row.nativeId].expiresAt == deadline
    }

    /** The container runs and has these ports. */
    predicate Runs(n: Id, ports: Ports)
      reads daemon
    {
      n in daemon.containers && daemon.containers[n].running && daemon.containers[n].ports == ports
    }

    /** The part of Start and Restart after the intent is recorded. */
    method Launch(op: Operation, ghost s0: State) returns (r: Result<Ports>)
      requires Valid() && During(s0, S(), op, Docker, false) && (op.kind.Start? || op.kind.Restart?) && op.deadline.Some?
      modifies this`now, this`alive, this`ledger, this`faults, this`timers, this`serial, daemon, repo
      ensures Valid() && old(now) <= now && old(faults) <= faults && daemon.log == old(daemon.log)
      ensures During(s0, S(), op, Docker, false) || After(s0, S(), op, Docker, false)
      ensures timers - {op.nativeId} == old(timers) - {op.nativeId}
      ensures r.Err? ==> !r.error.AlreadyRunning?
      ensures calm && r.Ok? ==> Runs(op.nativeId, r.value)
      ensures calm && faults == old(faults) && op.nativeId in old(daemon.containers) ==> r.Ok?
      ensures r.Ok? ==>
        && After(s0, S(), op, Docker, false)
        && op.nativeId in timers && timers[op.nativeId].expiresAt == op.deadline.value
        && op.publicId in old(repo.rows) && op.publicId in repo.rows
        && repo.rows[op.publicId] == Observed(old(repo.rows)[op.publicId], op.runtime, Some(r.value), op.deadline)
      ensures r.Err? ==> op.nativeId in timers || (timers == old(timers) && During(s0, S(), op, Docker, false))
    {
      hide Inv, At, EnvStep, During, After, Stopped, Settled, CompleteTx, Absent, NoTrespass, Consistent, RowsOk;
      var owned := CheckOwnership(op, s0, false);
      if owned.Err? {
        return Err(owned.error);
      }
      var f := PassFor(op, Some(op.nativeId), s0, false);
      ghost var s1 := S();
      var started := daemon.Start(op.nativeId, f);
      Launching(s0, s1, S(), op, Docker, op.nativeId);
      if started.Err? {
        return Err(started.error);
      }
      ScheduleDeadline(op.nativeId, op.deadline.value, op.deadline.value - now);
      f := PassFor(op, Some(op.nativeId), s0, false);
      var info := daemon.Inspect(op.nativeId, f);
      if !info.Found? {
        return Err(if info.Missing? then NotFound else Deferred);
      }
      var completed := CompleteFor(op, Some(info.info.ports), op.deadline, s0, false);
      if completed.Err? {
        return Err(Store);
      }
      return Ok(info.info.ports);
    }

    /** n has an owner with nothing pending, and its container is there. */
    ghost predicate Ready(s: State, n: Id) {
      OwnerOf(s.db, n).Some? && IntentOf(s.db, OwnerOf(s.db, n).value.token).None? && n in s.native
    }

    method LaunchLocked(n: Id, kind: Kind, deadline: int) returns (r: Result<Ports>)
      requires Valid() && (kind.Start? || kind.Restart?)
      modifies this, repo, daemon
      ensures Valid() && old(now) <= now && OnlyOwner(old(S()), S(), n, false) && daemon.log == old(daemon.log)
      ensures OnlyAddsJobs() && timers - {n} == old(timers) - {n}
      ensures OwnerOf(old(repo.T()), n).None? ==> r.Err?
      ensures r.Ok? ==> IntentOf(old(repo.T()), OwnerOf(old(repo.T()), n).value.token).None?
      ensures r.Err? ==> !r.error.AlreadyRunning?
      ensures calm && r.Ok? ==> Runs(n, r.value)
      ensures calm && faults == old(faults) && Ready(old(S()), n) ==> r.Ok?
      ensures r.Ok? ==> IsStarted(OwnerOf(old(repo.T()), n).value, deadline) && n in timers && timers[n].expiresAt == deadline
                        && repo.rows[OwnerOf(old(repo.T()), n).value.id].ports == r.value
      ensures !process.closing ==> KeepsTime()
    {
      hide Inv, At, EnvStep, During, After, Stopped, BegunFor, OnlyAttempt, OnlyOwner, OwnerOf, IntentOf, Kept, Holds, HasIntent, Moves, Ticks;
      ghost var s0, was := S(), timers;
      var begun := BeginFor(n, kind, Some(deadline));
      BegunMeans(s0, S(), n, kind, Some(deadline), begun);
      if begun.Err? {
        OwnerStays(s0, S(), n, false, was, timers, Docker);
        return Err(begun.error);
      }
      r := LaunchBegun(begun.value, n, s0);
      if !process.closing {
        OwnerStays(s0, S(), n, false, was, timers, Docker);
      }
    }

    /** The start or restart of the owner of n, once its intent is recorded. */
    method LaunchBegun(op: Operation, n: Id, ghost s0: State) returns (r: Result<Ports>)
      requires Valid() && Inv(s0, Docker) && (op.kind.Start? || op.kind.Restart?) && op.deadline.Some?
      requires BegunFor(s0, S(), n, op.kind, op.deadline, Ok(op)) && OwnerOf(s0.db, n).Some?
      modifies this, repo, daemon
      ensures Valid() && old(now) <= now && OnlyOwner(s0, S(), n, false) && daemon.log == old(daemon.log)
      ensures OnlyAddsJobs() && timers - {n} == old(timers) - {n} && old(faults) <= faults
      ensures r.Err? ==> !r.error.AlreadyRunning?
      ensures calm && r.Ok? ==> Runs(n, r.value)
      ensures calm && faults == old(faults) && n in old(daemon.containers) ==> r.Ok?
      ensures r.Ok? ==>
        var row := OwnerOf(s0.db, n).value;
        && IsStarted(row, op.deadline.value) && n in timers && timers[n].expiresAt == op.deadline.value && repo.rows[row.id].ports == r.value
      ensures !process.closing ==> n in timers
    {
      hide Inv, At, EnvStep, During, After, Stopped, BegunFor, OnlyAttempt, OnlyOwner, OwnerOf, IntentOf, Kept, Holds, HasIntent, Moves;
      hide Consistent, RowsOk, NoTrespass;
      ghost var s1 := S();
      BegunMeans(s0, s1, n, op.kind, op.deadline, Ok(op));
      Beginning(s1, op, Docker, false);
      DuringMeans(s1, s1, op, Docker, false);
      OwnerToken(s0, n, Docker);
      r := Launch(op, s1);
      Conclude(op, n, op.kind, op.deadline, s0, s1, false);
    }

    method Start(n: Id) returns (r: Result<Ports>)
      requires Valid()
      modifies this, repo, daemon
      ensures Valid() && old(now) <= now && OnlyOwner(old(S()), S(), n, false) && daemon.log == old(daemon.log) && OnlyAddsJobs()
      ensures OwnerOf(old(repo.T()), n).None? ==> r.Err?
      ensures r.Err? && r.error.AlreadyRunning? ==> repo.T() == old(repo.T())
      ensures calm && r.Ok? ==> Runs(n, r.value)
      ensures calm && faults == old(faults) && !process.closing && Ready(old(S()), n) ==>
        (r.Ok? <==> !old(daemon.containers)[n].running) && (r.Err? <==> r == Err(AlreadyRunning))
      ensures r.Ok? ==>
        && n in timers && old(now) + DEFAULT_TIMEOUT <= timers[n].expiresAt <= now + DEFAULT_TIMEOUT
        && IsStarted(OwnerOf(old(repo.T()), n).value, timers[n].expiresAt)
        && repo.rows[OwnerOf(old(repo.T()), n).value.id].ports == r.value
      ensures KeepsTime()
    {
      hide Inv, EnvStep, OnlyOwner, IsStarted, Ticks;
      if process.closing {
        EnvIsOwner(S(), n, Docker);
        return Err(Closing);
      }
      var f := Pass();
      EnvIsOwner(old(S()), n, Docker);
      EnvTicking(old(S()), S(), timers, Docker);
      var pre := daemon.Inspect(n, f);
      if !pre.Found? {
        return Err(if pre.Missing? then NotFound else Deferred);
      }
      if pre.info.running {
        return Err(AlreadyRunning);
      }
      ghost var s1, at := S(), now;
      r := LaunchLocked(n, Kind.Start, now + DEFAULT_TIMEOUT);
      OwnerPasses(old(S()), s1, S(), n, false, Docker);
    }

    method Restart(n: Id) returns (r: Result<Ports>)
      requires Valid()
      modifies this, repo, daemon
      ensures Valid() && old(now) <= now && OnlyOwner(old(S()), S(), n, false) && daemon.log == old(daemon.log) && OnlyAddsJobs()
      ensures OwnerOf(old(repo.T()), n).None? ==> r.Err?
      ensures calm && r.Ok? ==> Runs(n, r.value)
      ensures calm && faults == old(faults) && !process.closing && Ready(old(S()), n) ==> r.Ok?
      ensures r.Ok? ==>
        && n in timers && old(now) + DEFAULT_TIMEOUT <= timers[n].expiresAt <= now + DEFAULT_TIMEOUT
        && IsStarted(OwnerOf(old(repo.T()), n).value, timers[n].expiresAt)
        && repo.rows[OwnerOf(old(repo.T()), n).value.id].ports == r.value
      ensures KeepsTime()
    {
      hide Inv, EnvStep, OnlyOwner, IsStarted, Ticks;
      if process.closing {
        EnvIsOwner(S(), n, Docker);
        return Err(Closing);
      }
      r := LaunchLocked(n, Kind.Restart, now + DEFAULT_TIMEOUT);
    }

    /** Nothing of the attempt is left: no row, no intent, no container, no timer. */
    ghost predicate IsGone(row: Sandbox)
      reads this, repo, daemon
    {
      && RowOf(repo.T(), row.token).None?
      && IntentOf(repo.T(), row.token).None?
      && Absent(daemon.containers, row.token)
    }

    method RemoveBody(op: Operation, ghost s0: State) returns (r: Result<()>)
      requires Valid() && During(s0, S(), op, Docker, calm) && op.kind.Delete?
      modifies this`now, this`alive, this`ledger, this`faults, this`timers, daemon, repo
      ensures Valid() && old(now) <= now && old(faults) <= faults
      ensures During(s0, S(), op, Docker, calm) || After(s0, S(), op, Docker, calm)
      ensures timers == old(timers) || timers == old(timers) - {op.nativeId}
      ensures r.Ok? ==> After(s0, S(), op, Docker, calm) && Absent(daemon.containers, op.token) && RowOf(repo.T(), op.token).None?
                        && timers == old(timers) - {op.nativeId}
      ensures faults == old(faults) ==> r.Ok?
      ensures ActedFor(old(daemon.log), daemon.log, op, old(now), now, old(Due(op)))
      ensures Stopped(old(daemon.containers), op.token) ==> Stopped(daemon.containers, op.token)
      ensures timers == old(timers) || Absent(daemon.containers, op.token)
    {
      hide Inv, At, EnvStep, During, After, Absent, Names, RowsOk, Consistent, NoTrespass, RowOf, Holds;
      var owned := CheckOwnership(op, s0, calm);
      if owned.Err? {
        return owned;
      }
      var removed := RemoveFor(op, op.nativeId, s0, calm);
      if removed.Err? && !removed.error.NotFound? {
        return removed;
      }
      CancelTimer(op.nativeId);
      DuringMeans(s0, S(), op, Docker, calm);
      NamesOf(S(), op, Docker);
      r := DeleteFor(op, op, s0, calm);
    }

    lemma AbsentIsStopped(native: Natives, token: Id)
      ensures Absent(native, token) ==> Stopped(native, token)
    {
    }

    method Remove(n: Id) returns (r: Result<()>)
      requires Valid()
      modifies this, repo, daemon
      ensures Valid() && old(now) <= now && old(faults) <= faults && OnlyOwner(old(S()), S(), n, true) && OnlyAddsJobs()
      ensures OwnerOf(old(repo.T()), n).None? ==> r.Err? && daemon.log == old(daemon.log) && repo.T() == old(repo.T())
      ensures faults == old(faults) && !process.closing && Admits(old(repo.T()), n, Kind.Delete) ==> r.Ok?
      ensures r.Err? && OwnerOf(old(repo.T()), n).Some? ==>
        var token := OwnerOf(old(repo.T()), n).value.token;
        Lingers(repo.T(), token) <==> Lingers(old(repo.T()), token) && repo.T() == old(repo.T())
      ensures r.Ok? ==> IsGone(OwnerOf(old(repo.T()), n).value)
      ensures timers - {n} == old(timers) - {n} && old(daemon.log) <= daemon.log
      ensures KeepsTime()
    {
      hide Inv, At, EnvStep, During, After, Absent, BegunFor, OnlyAttempt, OnlyOwner, OwnerOf, IntentOf, Kept, Holds;
      hide HasRow, HasIntent, Moves, Ticks, Stopped;
      ghost var s0, was := S(), timers;
      if process.closing {
        EnvIsOwner(S(), n, Docker);
        OwnerMore(S(), S(), n);
        return Err(Closing);
      }
      var begun := BeginFor(n, Kind.Delete, None);
      BegunMeans(s0, S(), n, Kind.Delete, None, begun);
      if begun.Err? {
        OwnerStays(s0, S(), n, true, was, timers, Docker);
        return Err(begun.error);
      }
      r := RemoveBegun(begun.value, n, s0);
      AbsentIsStopped(daemon.containers, OwnerOf(s0.db, n).value.token);
      OwnerStays(s0, S(), n, true, was, timers, Docker);
    }

    /** The removal of the owner of n, once its intent is recorded. */
    method RemoveBegun(op: Operation, n: Id, ghost s0: State) returns (r: Result<()>)
      requires Valid() && Inv(s0, Docker) && BegunFor(s0, S(), n, Kind.Delete, None, Ok(op)) && OwnerOf(s0.db, n).Some?
      modifies this, repo, daemon
      ensures Valid() && old(now) <= now && old(faults) <= faults && OnlyOwner(s0, S(), n, true) && OnlyAddsJobs()
      ensures faults == old(faults) ==> r.Ok?
      ensures !Lingers(repo.T(), OwnerOf(s0.db, n).value.token)
      ensures r.Ok? ==> IsGone(OwnerOf(s0.db, n).value)
      ensures timers - {n} == old(timers) - {n} && old(daemon.log) <= daemon.log
      ensures var token := OwnerOf(s0.db, n).value.token;
        && (Stopped(old(daemon.containers), token) ==> Stopped(daemon.containers, token))
        && (n in old(timers) && n !in timers ==> Absent(daemon.containers, token))
    {
      hide Inv, At, EnvStep, During, After, Absent, BegunFor, OnlyAttempt, OnlyOwner, OwnerOf, IntentOf, Kept, Holds, HasIntent, HasRow, Moves;
      ghost var s1 := S();
      BegunMeans(s0, s1, n, Kind.Delete, None, Ok(op));
      Beginning(s1, op, Docker, calm);
      r := RemoveBody(op, s1);
      DeletionEnds(s1, S(), op, Docker, calm);
      Conclude(op, n, Kind.Delete, None, s0, s1, calm);
    }

    method RenewExpiration(n: Id, timeout: int) returns (r: Result<()>)
      requires Valid()
      modifies this, repo, daemon
      ensures Valid() && old(now) <= now && OnlyOwner(old(S()), S(), n, false) && daemon.log == old(daemon.log) && OnlyAddsJobs()
      ensures repo.ops == old(repo.ops) && old(faults) <= faults && timers - {n} == old(timers) - {n}
      ensures calm && !process.closing && n in old(daemon.containers) && faults == old(faults) && OwnerOf(old(repo.T()), n).Some? && Idle(old(S()), n) ==> r.Ok?
      ensures r.Ok? ==>
        && OwnerOf(old(repo.T()), n).Some? && IntentOf(old(repo.T()), OwnerOf(old(repo.T()), n).value.token).None?
        && var row := OwnerOf(old(repo.T()), n).value;
        && n in timers && old(now) + timeout <= timers[n].expiresAt <= now + timeout
        && row.id in repo.rows && repo.rows[row.id] == row.(expiresAt := Some(timers[n].expiresAt))
      ensures KeepsTime()
    {
      hide Inv, EnvStep, OnlyOwner, Consistent, NoTrespass, Ticks;
      EnvIsOwner(S(), n, Docker);
      if OwnerOf(repo.T(), n).Some? {
        IdleMeans(S(), n);
      }
      if process.closing {
        return Err(Closing);
      }
      var f := Pass();
      EnvTicking(old(S()), S(), timers, Docker);
      var info := daemon.Inspect(n, f);
      if !info.Found? {
        return Err(if info.Missing? then NotFound else Deferred);
      }
      ghost var s1 := S();
      r := Renew(n, now + timeout);
      OwnerPasses(old(S()), s1, S(), n, false, Docker);
    }

    method Renew(n: Id, deadline: int) returns (r: Result<()>)
      requires Valid()
      modifies this, repo, daemon
      ensures Valid() && old(now) <= now && OnlyOwner(old(S()), S(), n, false) && daemon.log == old(daemon.log) && OnlyAddsJobs()
      ensures repo.ops == old(repo.ops) && old(faults) <= faults && timers - {n} == old(timers) - {n}
      ensures faults == old(faults) && OwnerOf(old(repo.T()), n).Some? && Idle(old(S()), n) ==> r.Ok?
      ensures r.Ok? ==>
        && OwnerOf(old(repo.T()), n).Some? && IntentOf(old(repo.T()), OwnerOf(old(repo.T()), n).value.token).None?
        && var row := OwnerOf(old(repo.T()), n).value;
        && n in timers && timers[n].expiresAt == deadline
        && row.id in repo.rows && repo.rows[row.id] == row.(expiresAt := Some(deadline))
      ensures KeepsTime()
    {
      hide Inv, EnvStep, OnlyOwner, Consistent, Idle, OwnerOf, IntentOf, Ticks, NoTrespass;
      EnvIsOwner(S(), n, Docker);
      if OwnerOf(repo.T(), n).Some? {
        IdleMeans(S(), n);
      }
      var f := Pass();
      ghost var s1 := S();
      EnvTicking(old(S()), s1, timers, Docker);
      EnvSame(old(S()), s1);
      r := WriteDeadline(n, deadline, f);
      OwnerPasses(old(S()), s1, S(), n, false, Docker);
      if r.Ok? {
        ghost var was := timers;
        ScheduleDeadline(n, deadline, deadline - now);
        MoreTicks(S(), n, was, timers);
      }
    }

    /** The transaction of a renewal. */
    method WriteDeadline(n: Id, deadline: int, f: Fault) returns (r: Result<()>)
      requires Valid()
      modifies repo
      ensures Valid() && OnlyOwner(old(S()), S(), n, false) && repo.ops == old(repo.ops)
      ensures f.Clean? && OwnerOf(old(repo.T()), n).Some? && IntentOf(old(repo.T()), OwnerOf(old(repo.T()), n).value.token).None? ==> r.Ok?
      ensures r.Ok? ==>
        && OwnerOf(old(repo.T()), n).Some? && IntentOf(old(repo.T()), OwnerOf(old(repo.T()), n).value.token).None?
        && var row := OwnerOf(old(repo.T()), n).value;
        && row.id in repo.rows && repo.rows[row.id] == row.(expiresAt := Some(deadline))
      ensures KeepsTime()
    {
      hide Inv, EnvStep, OnlyOwner, Consistent, SetDeadlineTx, Transacted, OwnerOf, IntentOf, Ticks, NoTrespass, Stopped;
      ghost var s1 := S();
      InvParts(s1, Docker);
      r := repo.SetDeadline(n, Docker, Some(deadline), f);
      Renewing(s1, S(), n, Some(deadline), Docker, f, r);
      OwnerStays(s1, S(), n, false, timers, timers, Docker);
    }

    /** The entries that were made for an intent that was pending before, or not before the durable deadline. */
    twostate predicate Justified(log: seq<Effect>, log': seq<Effect>)
      reads repo
    {
      && log <= log'
      && forall i | |log| <= i < |log'| ::
           || (log'[i].actor.id in old(repo.ops) && old(repo.ops)[log'[i].actor.id] == log'[i].actor)
           || (log'[i].due.Some? && log'[i].due.value <= log'[i].at)
    }

    /** What is pending for n, if anything, is not a creation and can be settled now. */
    ghost predicate Recoverable(s: State, n: Id) {
      && OwnerOf(s.db, n).Some?
      && var token := OwnerOf(s.db, n).value.token;
      IntentOf(s.db, token).Some? ==> !IntentOf(s.db, token).value.kind.Create? && Steady(s.native, token)
    }

    /** Finish the pending intent of n, if there is one; a pending creation waits for its adoption. */
    method ReconcileResource(n: Id) returns (r: Result<()>)
      requires Valid()
      modifies this, repo, daemon
      ensures Valid() && old(now) <= now && OnlyOwner(old(S()), S(), n, false) && unchanged(this`jobs, this`attempts, this`process)
      ensures r.Ok? ==> Idle(S(), n) && TimerOrNoDeadline(old(timers), n)
      ensures timers - {n} == old(timers) - {n}
      ensures old(faults) <= faults
      ensures faults == old(faults) && calm && Recoverable(old(S()), n) ==> r.Ok?
      ensures faults == old(faults) && OwnerOf(old(repo.T()), n).Some? && Idle(old(S()), n) ==>
        r.Ok? && repo.T() == old(repo.T()) && timers == old(timers) && daemon.log == old(daemon.log)
      ensures Justified(old(daemon.log), daemon.log)
      ensures KeepsTime()
      ensures faults == old(faults) && OwnerOf(old(repo.T()), n).None? && (forall o <- old(repo.ops) :: old(repo.ops)[o].nativeId != n) ==> r.Ok?
      ensures r.Ok? && OwnerOf(repo.T(), n).None? && n !in old(timers) ==> n !in timers
    {
      hide Inv, EnvStep, OnlyOwner, Idle, TimerOrNoDeadline, Consistent, Steady, Ticks, NoTrespass, OpsOk, Linked;
      EnvIsOwner(S(), n, Docker);
      ghost var s0 := S();
      var f := Pass();
      EnvTicking(s0, S(), timers, Docker);
      if !f.Clean? {
        return Err(Store);
      }
      ghost var s1 := S();
      InvParts(s1, Docker);
      var pending := repo.FindPending(n);
      if OwnerOf(s0.db, n).Some? {
        IdleMeans(s0, n);
      }
      if pending.None? {
        NothingPending(s1, n);
        TimersStay(old(timers), n);
        return Ok(());
      }
      if pending.value.kind.Create? {
        return Err(Deferred);
      }
      PendingOwner(s1, n, pending.value, Docker);
      r := ReconcilePending(pending.value);
      OwnerPasses(s0, s1, S(), n, false, Docker);
    }

    /** Unless the timer of n is still there, its container is gone or has no deadline any more. */
    ghost predicate TimerOrNoDeadline(old_: Clock, n: Id)
      reads this, repo
    {
      n in old_ && n !in timers ==> OwnerOf(repo.T(), n).None? || OwnerOf(repo.T(), n).value.expiresAt.None?
    }

    lemma TimersStay(old_: Clock, n: Id)
      requires timers == old_
      ensures TimerOrNoDeadline(old_, n)
    {
    }

    method ReconcilePending(op: Operation) returns (r: Result<()>)
      requires Valid() && Holds(S(), op) && !op.kind.Create?
      requires OwnerOf(repo.T(), op.nativeId).Some? && OwnerOf(repo.T(), op.nativeId).value.token == op.token
      modifies this, repo, daemon
      ensures Valid() && old(now) <= now && OnlyOwner(old(S()), S(), op.nativeId, false) && unchanged(this`jobs, this`attempts, this`process)
      ensures r.Ok? ==> Idle(S(), op.nativeId) && TimerOrNoDeadline(old(timers), op.nativeId)
      ensures timers - {op.nativeId} == old(timers) - {op.nativeId}
      ensures old(faults) <= faults
      ensures faults == old(faults) && calm && Steady(old(daemon.containers), op.token) ==> r.Ok?
      ensures Justified(old(daemon.log), daemon.log)
      ensures KeepsTime()
      ensures r.Ok? && OwnerOf(repo.T(), op.nativeId).None? ==> op.nativeId !in timers
    {
      hide Inv, EnvStep, During, After, OnlyOwner, Idle, Steady, Ticks;
      ghost var s0 := S();
      r := Reconcile(op);
      ReconciledOwner(old(S()), S(), op.nativeId, op, Docker, calm);
      if r.Ok? && !Undoing(op.kind) {
        OwnRows(s0, S(), op, Docker, calm);
        OwnerIs(repo.T(), Docker, op.publicId, op.nativeId) by { InvParts(S(), Docker); }
      }
      hide OwnerOf;
      if r.Ok? && op.kind.Delete? && OwnerOf(repo.T(), op.nativeId).Some? {
        OwnerHasRow(S(), op.nativeId, op.token, Docker);
      }
    }

    /** What a callback that met no failure has done: stopped the sandbox, or, if its deadline is later than the
        entry and still ahead, set the timer for it. */
    ghost predicate Served(row: Sandbox, entry: Timer, since: int)
      reads this, repo, daemon
    {
      || IsStopped(row)
      || (&& row.expiresAt.Some? && row.expiresAt.value > entry.expiresAt && row.expiresAt.value > since
          && row.id in repo.rows && repo.rows[row.id] == row
          && row.nativeId in timers && timers[row.nativeId].expiresAt == row.expiresAt.value)
    }

    /** What is still armed for n fires later than now: for the same deadline once more, or for that of the row. */
    ghost predicate FiresLater(n: Id, entry: Timer, since: int)
      reads this, repo
    {
      n in timers ==>
        && timers[n].fireAt > since
        && (timers[n].expiresAt == entry.expiresAt ||
            (OwnerOf(repo.T(), n).Some? && OwnerOf(repo.T(), n).value.expiresAt == Some(timers[n].expiresAt)))
    }

    /** A TTL callback: the timer entry it was armed with has fired. It stops the container only if that
        entry is still the current one, and never before the durable deadline. */
    method ExpireLocked(n: Id, entry: Timer)
      requires Valid() && entry.fireAt <= now
      modifies this, repo, daemon
      ensures Valid() && old(now) <= now && OnlyOwner(old(S()), S(), n, false) && OnlyAddsJobs()
      ensures timers - {n} == old(timers) - {n}
      ensures Justified(old(daemon.log), daemon.log)
      ensures old(process.closing || n !in timers || timers[n] != entry) ==> S() == old(S()) && timers == old(timers)
      ensures old(faults) <= faults
      ensures faults == old(faults) && old(!process.closing && n in timers && timers[n] == entry && OwnerOf(repo.T(), n).Some? && Idle(S(), n)) ==>
        Served(OwnerOf(old(repo.T()), n).value, entry, old(now))
      ensures old(!process.closing && n in timers && timers[n] == entry) ==> TimerOrNoDeadline(old(timers), n)
      ensures KeepsTime()
      ensures old(!process.closing && n in timers && timers[n] == entry) ==> FiresLater(n, entry, old(now))
    {
      hide Inv, EnvStep, OnlyOwner, Idle, OwnerOf, IsStopped, Ticks;
      EnvIsOwner(S(), n, Docker);
      if process.closing || n !in timers || timers[n] != entry {
        return;
      }
      var reconciled := ReconcileResource(n);
      if reconciled.Err? {
        ghost var was := timers;
        ScheduleDeadline(n, entry.expiresAt, RETRY_DELAY);
        MoreTicks(S(), n, was, timers);
        return;
      }
      if n !in timers {
        return;
      }
      ghost var s1 := S();
      ExpireIdle(n, entry);
      OwnerTrans(old(S()), s1, S(), n, false, false, Docker);
    }

    /** The rest of the callback, once no intent of the sandbox is pending. */
    method ExpireIdle(n: Id, entry: Timer)
      requires Valid() && entry.fireAt <= now && Idle(S(), n) && n in timers
      modifies this, repo, daemon
      ensures Valid() && old(now) <= now && OnlyOwner(old(S()), S(), n, false) && OnlyAddsJobs()
      ensures timers - {n} == old(timers) - {n}
      ensures OverdueOnly(old(daemon.log), daemon.log)
      ensures TimerOrNoDeadline(old(timers), n)
      ensures old(faults) <= faults
      ensures faults == old(faults) && OwnerOf(old(repo.T()), n).Some? ==> Served(OwnerOf(old(repo.T()), n).value, entry, old(now))
      ensures KeepsTime()
      ensures FiresLater(n, entry, old(now))
    {
      hide Inv, EnvStep, OnlyOwner, Stopped, Consistent, IntentOf, NoTrespass, OpsOk, Linked, Ticks, IsStopped, OwnerOf, RowsOk;
      EnvIsOwner(S(), n, Docker);
      ghost var s0 := S();
      var f := Pass();
      EnvTicking(s0, S(), timers, Docker);
      ghost var s1 := S();
      EnvSame(s0, s1);
      if !f.Clean? {
        ghost var was := timers;
        ScheduleDeadline(n, entry.expiresAt, RETRY_DELAY);
        MoreTicks(S(), n, was, timers);
        return;
      }
      InvParts(s1, Docker);
      var found := repo.FindByNativeId(n);
      if found.None? {
        ghost var was := timers;
        CancelTimer(n);
        DropTicks(S(), n, was, Docker);
        return;
      }
      var row := found.value;
      OwnerToken(s1, n, Docker);
      if row.expiresAt.Some? && row.expiresAt.value > entry.expiresAt && row.expiresAt.value > now {
        ghost var was := timers;
        ScheduleDeadline(n, row.expiresAt.value, row.expiresAt.value - now);
        MoreTicks(S(), n, was, timers);
        return;
      }
      StopOverdue(n, row, entry);
      OwnerPasses(s0, s1, S(), n, false, Docker);
    }

    method StopOverdue(n: Id, row: Sandbox, entry: Timer)
      requires Valid() && Idle(S(), n) && OwnerOf(repo.T(), n) == Some(row) && entry.expiresAt <= now
      requires row.expiresAt.Some? ==> row.expiresAt.value <= now
      modifies this, repo, daemon
      ensures Valid() && old(now) <= now && OnlyOwner(old(S()), S(), n, false) && OnlyAddsJobs()
      ensures timers - {n} == old(timers) - {n}
      ensures OverdueOnly(old(daemon.log), daemon.log)
      ensures TimerOrNoDeadline(old(timers), n)
      ensures old(faults) <= faults && (faults == old(faults) ==> IsStopped(row))
      ensures KeepsTime()
      ensures FiresLater(n, entry, old(now))
    {
      hide Inv, EnvStep, OnlyOwner, Stopped, OwnerOf, Idle, Ticks;
      if row.expiresAt.None? {
        IdleIsStopped(S(), n, Docker);
      }
      OwnerToken(S(), n, Docker);
      IdleMeans(S(), n);
      var stopped := StopLocked(n);
      if !Halted(stopped) {
        ghost var was := timers;
        ScheduleDeadline(n, entry.expiresAt, RETRY_DELAY);
        MoreTicks(S(), n, was, timers);
        return;
      }
      OwnerNow(S(), row.(expiresAt := None), n, Docker);
      ghost var was := timers;
      CancelTimer(n);
      DropTicks(S(), n, was, Docker);
    }

    /******* Create *******/

    /** How far a creation got when it is rolled back: its intent is stored, bound or not, and no row; or its
        row was committed although the response was lost. */
    ghost predicate Provisioned(op: Operation, stored: Operation, row: Sandbox, s0: State)
      reads this, repo, daemon
    {
      && Trying(s0, S(), op.token, Docker) && At(S(), op.token, Some(row.nativeId))
      && stored.token == op.token && stored.kind.Create? && op.runtime == Docker
      && s0.ledger.supply <= row.nativeId && s0.ledger.supply <= row.id
      && OnlyOp(repo.T(), op.token, op.id) && Names(repo.T(), op)
      && (row.id in repo.rows || (
            && NoRow(repo.T(), op.token) && Holds(S(), stored) && RowFor(row, BoundTo(stored, row.nativeId))
            && (stored.nativeId == NONE || stored.nativeId == row.nativeId)
            && (stored.nativeId == NONE ==> Unclaimed(repo.T(), row.nativeId))))
    }

    /** The deferred rollback of a failed creation. */
    method Rollback(op: Operation, row: Sandbox, ghost stored: Operation, ghost s0: State)
      requires Valid() && Provisioned(op, stored, row, s0)
      modifies this`now, this`alive, this`ledger, this`faults, this`timers, daemon, repo
      ensures Valid() && old(now) <= now && Trying(s0, S(), op.token, Docker) && ledger.awaiting == old(ledger.awaiting)
      ensures UndoneFor(old(daemon.log), daemon.log, op.token)
      ensures old(faults) <= faults
      ensures faults == old(faults) ==>
        NoRow(repo.T(), op.token) && IntentOf(repo.T(), op.token).None? && Absent(daemon.containers, op.token)
      ensures timers == old(timers) - {row.nativeId}
      ensures op.token in ledger.abandoned || Absent(daemon.containers, op.token)
    {
      hide Inv, At, EnvStep, Absent, Names, Trying, OnlyOp, NoRow, RowFor, Unclaimed, OwnTx, DeleteTx;
      CancelTimer(row.nativeId);
      var removed := RemoveCreated(op, row.nativeId, s0);
      ghost var s2 := S();
      var f := Pass();
      ghost var s3 := S();
      TryPasses(s0, s2, s3, op.token, Docker, Some(row.nativeId));
      if removed.Err? && !removed.error.NotFound? {
        Abandon(op.token, s0, Some(row.nativeId));
        ghost var s4 := S();
        var owned := repo.CreateOwnership(row, f);
        if row.id in s4.db.rows {
          OwningAgain(s0, s4, S(), op.token, row, Docker, f, owned);
        } else {
          Owning(s0, s4, S(), stored, row, Docker, f, owned);
        }
      } else {
        var deleted := repo.DeleteOperation(op, f);
        TryDeletes(s0, s3, S(), op, Docker, f, deleted);
      }
      TryMeans(s0, S(), op.token, Docker);
    }

    /** Remove the container that a creation made. */
    method RemoveCreated(op: Operation, n: Id, ghost s0: State) returns (r: Result<()>)
      requires Valid() && Trying(s0, S(), op.token, Docker) && At(S(), op.token, Some(n))
      modifies this`now, this`alive, this`ledger, this`faults, daemon
      ensures Valid() && old(now) <= now && Trying(s0, S(), op.token, Docker) && At(S(), op.token, Some(n)) && ledger.awaiting == old(ledger.awaiting)
      ensures UndoneFor(old(daemon.log), daemon.log, op.token)
      ensures old(faults) <= faults && (faults == old(faults) ==> r.Ok? || r.error.NotFound?)
      ensures r.Ok? || r.error.NotFound? ==> Absent(daemon.containers, op.token)
    {
      hide Inv, At, EnvStep, Absent, Trying;
      var f := Pass();
      TryPasses(s0, old(S()), S(), op.token, Docker, Some(n));
      ghost var s := S();
      if n in daemon.containers {
        Label(s, op.token, n);
      }
      r := daemon.Remove(n, f, op, now, Due(op));
      TryHalts(s0, s, S(), op.token, Docker, n);
      TryMeans(s0, S(), op.token, Docker);
    }

    method Abandon(token: Id, ghost s0: State, ghost n: Option<Id>)
      requires Valid() && Trying(s0, S(), token, Docker)
      modifies this`ledger
      ensures Valid() && Trying(s0, S(), token, Docker) && token in ledger.abandoned && ledger.awaiting == old(ledger.awaiting)
      ensures At(old(S()), token, n) ==> At(S(), token, n)
    {
      hide Inv;
      ledger := ledger.(abandoned := ledger.abandoned + {token});
      AbandonKeeps(s0, old(S()), token, Docker);
    }

    /** From the created container to the committed row. On failure the creation is ready for its rollback. */
    method Provision(op: Operation, row: Sandbox, awaitAdoption: bool, ghost s0: State)
      returns (r: Result<Ports>, known: Operation, ghost stored: Operation)
      requires Valid() && Provisioned(op, op, row, s0) && row.id !in repo.rows && op.nativeId == NONE && op.deadline.Some?
      requires op.token in ledger.awaiting ==> awaitAdoption
      modifies this`now, this`alive, this`ledger, this`faults, daemon, repo
      ensures Valid() && old(now) <= now && daemon.log == old(daemon.log) && Trying(s0, S(), op.token, Docker)
      ensures known.id == op.id && known.token == op.token && ledger.abandoned == old(ledger.abandoned) && ledger.awaiting == old(ledger.awaiting)
      ensures old(faults) <= faults && (calm && faults == old(faults) && row.nativeId in old(daemon.containers) ==> r.Ok?)
      ensures calm && r.Ok? ==> Runs(row.nativeId, r.value)
      ensures r.Err? ==> Provisioned(known, stored, row, s0)
      ensures r.Ok? ==>
        && known == BoundTo(op, row.nativeId) && At(S(), op.token, Some(row.nativeId))
        && row.id in repo.rows && repo.rows[row.id] == row.(ports := r.value)
        && OnlyOp(repo.T(), op.token, op.id) && (if awaitAdoption then Holds(S(), known) else op.id !in repo.ops)
    {
      hide Inv, At, EnvStep, Absent, Trying, OnlyOp, Unclaimed;
      known, stored := op, op;
      var f := Pass();
      TryPasses(s0, old(S()), S(), op.token, Docker, Some(row.nativeId));
      ghost var s1 := S();
      var bound := repo.BindCreation(op, row.nativeId, f);
      Binding(s0, s1, S(), op, row.nativeId, Docker, f, bound);
      TryMeans(s0, S(), op.token, Docker);
      if bound.Err? {
        if S() != s1 {
          stored := BoundTo(op, row.nativeId);
        }
        AtDb(s1, S(), op.token, row.nativeId);
        BlankNames(S(), op, stored, row, Docker);
        return Err(Store), known, stored;
      }
      known, stored := bound.value, bound.value;
      AtDb(s1, S(), op.token, row.nativeId);
      BlankNames(S(), known, stored, row, Docker);
      r := StartAndCommit(known, row, awaitAdoption, s0);
    }

    method StartAndCommit(op: Operation, row: Sandbox, awaitAdoption: bool, ghost s0: State) returns (r: Result<Ports>)
      requires Valid() && Provisioned(op, op, row, s0) && row.id !in repo.rows && RowFor(row, op) && op.deadline.Some?
      requires op.token in ledger.awaiting ==> awaitAdoption
      modifies this`now, this`alive, this`ledger, this`faults, daemon, repo
      ensures Valid() && old(now) <= now && daemon.log == old(daemon.log) && Trying(s0, S(), op.token, Docker)
      ensures ledger.abandoned == old(ledger.abandoned) && ledger.awaiting == old(ledger.awaiting)
      ensures old(faults) <= faults && (calm && faults == old(faults) && row.nativeId in old(daemon.containers) ==> r.Ok?)
      ensures calm && r.Ok? ==> Runs(row.nativeId, r.value)
      ensures r.Err? ==> Provisioned(op, op, row, s0)
      ensures r.Ok? ==>
        && At(S(), op.token, Some(row.nativeId))
        && row.id in repo.rows && repo.rows[row.id] == row.(ports := r.value)
        && OnlyOp(repo.T(), op.token, op.id) && (if awaitAdoption then Holds(S(), op) else op.id !in repo.ops)
    {
      hide Inv, At, EnvStep, Absent, Trying, OnlyOp, Unclaimed, NoRow, NoTrespass, Consistent, RowsOk;
      var f := Pass();
      TryPasses(s0, old(S()), S(), op.token, Docker, Some(row.nativeId));
      ghost var s1 := S();
      var started := daemon.Start(row.nativeId, f);
      FirstStart(s0, s1, S(), op, row.nativeId, Docker);
      TryMeans(s0, S(), op.token, Docker);
      if started.Err? {
        return Err(started.error);
      }
      ghost var s2 := S();
      f := Pass();
      TryPasses(s0, s2, S(), op.token, Docker, Some(row.nativeId));
      var info := daemon.Inspect(row.nativeId, f);
      if !info.Found? {
        return Err(if info.Missing? then NotFound else Deferred);
      }
      ghost var s3 := S();
      f := Pass();
      ghost var s4 := S();
      TryPasses(s0, s3, s4, op.token, Docker, Some(row.nativeId));
      var full := row.(ports := info.info.ports);
      var committed := repo.CommitCreation(op, full, awaitAdoption, f);
      Committing(s0, s4, S(), op, full, awaitAdoption, Docker, f, committed);
      TryMeans(s0, S(), op.token, Docker);
      AtDb(s4, S(), op.token, row.nativeId);
      if committed.Err? {
        if S() != s4 {
          CommittedNames(S(), op, full, Docker);
        }
        return Err(committed.error);
      }
      return Ok(info.info.ports);
    }

    /** A token: attempts that await adoption keep their creation intent until the service adopts them. */
    method NewToken(awaitAdoption: bool) returns (token: Id)
      requires Valid()
      modifies this`ledger
      ensures Valid() && token == old(ledger.supply) && S() == Issued(old(S()), token, awaitAdoption)
      ensures Unused(S(), token) && Trying(old(S()), S(), token, Docker)
      ensures (token in ledger.awaiting <==> awaitAdoption) && token !in ledger.abandoned
    {
      hide Inv, Unused, Trying;
      token := ledger.supply;
      TokenIsUnused(S(), awaitAdoption, Docker);
      ledger := ledger.(issued := ledger.issued + {token}, supply := token + 1,
                        awaiting := if awaitAdoption then ledger.awaiting + {token} else ledger.awaiting);
      TryMeans(old(S()), S(), token, Docker);
    }

    /** A sandbox that was created: its row, its container if it is still there, its timer, and its creation
        intent if the service has yet to adopt it. */
    ghost predicate IsCreated(n: Id, token: Id, deadline: int, ports: Ports, awaitAdoption: bool)
      reads this, repo, daemon
    {
      && OwnerOf(repo.T(), n).Some?
      && var row := OwnerOf(repo.T(), n).value;
      && row.token == token && row.nativeId == n && row.expiresAt == Some(deadline) && row.ports == ports
      && row.id in repo.rows && repo.rows[row.id] == row
      && At(S(), token, Some(n))
      && n in timers && timers[n].expiresAt == deadline
      && (if awaitAdoption
          then IntentOf(repo.T(), token).Some? && Adopted(IntentOf(repo.T(), token).value, row)
               && n in attempts && attempts[n] == IntentOf(repo.T(), token).value
          else IntentOf(repo.T(), token).None?)
    }

    /** No row and no intent has the public identity, if one is asked for. */
    ghost predicate Available(t: Tables, public: Id) {
      public != NONE ==> public !in t.rows && forall k <- t.ops :: t.ops[k].publicId != public
    }

    /** Record the creation intent: nothing native has happened before it. */
    method BeginCreation(public: Id, deadline: int, awaitAdoption: bool, ghost s0: State) returns (r: Result<Operation>, op: Operation)
      requires Valid() && public < ledger.supply && Inv(s0, Docker) && EnvStep(s0, S())
      modifies this`now, this`alive, this`ledger, this`faults, daemon`containers, repo
      ensures Valid() && old(now) <= now && old(ledger.supply) <= op.token && Trying(s0, S(), op.token, Docker)
      ensures op.id == op.token && Absent(daemon.containers, op.token) && (op.token in ledger.awaiting <==> awaitAdoption)
      ensures r.Err? && op.id in repo.ops ==> repo.ops[op.id].nativeId == NONE
      ensures old(faults) <= faults && (faults == old(faults) && Available(old(repo.T()), public) ==> r.Ok?)
      ensures calm ==> daemon.containers == old(daemon.containers)
      ensures r.Ok? ==>
        && Holds(S(), op) && OnlyOp(repo.T(), op.token, op.id) && NoRow(repo.T(), op.token) && Absent(daemon.containers, op.token)
        && op.kind.Create? && op.nativeId == NONE && op.publicId == public && op.deadline == Some(deadline) && op.runtime == Docker
        && op.token !in ledger.abandoned
    {
      hide Inv, EnvStep, Absent, Trying, OnlyOp, NoRow, Unused, Free, Known, Consistent, Labelled, NoOrphan, Timed, Adoptable, NoTrespass;
      var token := NewToken(awaitAdoption);
      ghost var s1 := S();
      TrySooner(s0, old(S()), s1, token, Docker);
      var name := NewId();
      ghost var s2 := S();
      NewIsFree(s1, s2, Docker);
      TryPasses(s0, s1, s2, token, Docker, None);
      UnusedStays(s1, s2, token) by { InvParts(s1, Docker); }
      var f := Pass();
      ghost var s3 := S();
      TryPasses(s0, s2, s3, token, Docker, None);
      UnusedStays(s2, s3, token) by { InvParts(s2, Docker); }
      FreeStays(s2, s3, name) by { InvParts(s2, Docker); }
      op := Operation(token, Docker, public, NONE, name, token, Kind.Create, Some(deadline));
      TokenIsNew(old(S()), s3, token, Docker);
      var begun := repo.BeginCreate(op, f);
      Recording(s0, s3, S(), op, Docker, f, begun);
      TryMeans(s0, S(), token, Docker);
      r := if begun.Ok? then Ok(op) else Err(begun.error);
    }

    /** What the process remembers of a creation: a created sandbox that awaits its adoption, and nothing else. */
    twostate predicate Remembers(created: Option<Id>, token: Id, awaitAdoption: bool)
      reads this
    {
      if created.Some? && awaitAdoption then
        var n := created.value;
        && n in attempts && attempts == old(attempts)[n := attempts[n]]
        && attempts[n].nativeId == n && attempts[n].id == token && attempts[n].token == token
      else attempts == old(attempts)
    }

    /** An intent that a failed creation left behind has a job; or its recording was not reported, and nothing native
        exists for it. */
    ghost predicate IsWatched(token: Id)
      reads this, repo, daemon
    {
      token in repo.ops && !process.quit ==>
        token in jobs || (repo.ops[token].nativeId == NONE && Absent(daemon.containers, token))
    }

    /** The public identity was drawn since s0, so that it is new. */
    ghost predicate Draws(s0: State, public: Id)
      reads this, repo, daemon
    {
      Inv(s0, Docker) && EnvStep(s0, S()) && public < ledger.supply && (public == NONE || s0.ledger.supply <= public)
    }

    method Create(public: Id, timeout: int, ports: Ports, provenance: Provenance, imageExists: bool, awaitAdoption: bool, ghost s0: State)
      returns (r: Result<(Id, Ports)>, ghost token: Id)
      requires Valid() && Draws(s0, public)
      modifies this, repo, daemon
      ensures Valid() && old(now) <= now && old(ledger.supply) <= token && unchanged(this`process)
      ensures OnlyAttempt(s0, S(), token) && Lasting(s0.ledger.supply, s0.db, repo.T()) && s0.ledger.supply <= token
      ensures Remembers(if r.Ok? then Some(r.value.0) else None, token, awaitAdoption) && forall k <- old(jobs) :: k in jobs
      ensures r.Ok? ==> s0.ledger.supply <= r.value.0
      ensures r.Err? ==> IsWatched(token)
      ensures awaitAdoption ==> token in ledger.awaiting || ledger.supply <= token
      ensures !imageExists ==> r.Err? && repo.T() == old(repo.T()) && ledger.supply <= token
      ensures old(faults) <= faults
      ensures UndoneFor(old(daemon.log), daemon.log, token)
      ensures calm && faults == old(faults) && !process.closing && imageExists && Available(old(repo.T()), public) ==> r.Ok?
      ensures calm && r.Ok? ==> Runs(r.value.0, r.value.1)
      ensures r.Ok? ==>
        && token !in ledger.abandoned
        && r.value.0 in timers
        && var wait := if timeout <= 0 then DEFAULT_TIMEOUT else timeout;
        && old(now) + wait <= timers[r.value.0].expiresAt <= now + wait
        && IsCreated(r.value.0, token, timers[r.value.0].expiresAt, r.value.1, awaitAdoption)
        && (public != NONE ==> OwnerOf(repo.T(), r.value.0).value.id == public)
      ensures Older(s0.ledger.supply, old(timers), timers) && (r.Err? ==> Shut(token))
    {
      hide Inv, EnvStep, Absent, Trying, OnlyOp, NoRow, IsCreated, OnlyAttempt, At, Lasting, Older;
      OlderSame(s0.ledger.supply, timers);
      token := ledger.supply;
      NothingBegun(s0, S(), Docker);
      if process.closing {
        return Err(Closing), token;
      }
      var f := Pass();
      EnvTrans(s0, old(S()), S()) by { InvParts(s0, Docker); }
      token := ledger.supply;
      NothingBegun(s0, S(), Docker);
      if !f.Clean? {
        return Err(Deferred), token;
      }
      if !imageExists {
        return Err(NotFound), token;
      }
      var wait := timeout;
      if wait <= 0 {
        wait := DEFAULT_TIMEOUT;
      }
      var op;
      r, op := CreateUntil(public, now + wait, ports, provenance, awaitAdoption, s0);
      token := op.token;
    }

    /** Before a token is generated nothing has happened. */
    lemma NothingBegun(s0: State, s: State, rt: Runtime)
      requires Inv(s0, rt) && EnvStep(s0, s) && Inv(s, rt)
      ensures var token := s.ledger.supply;
        OnlyAttempt(s0, s, token) && Lasting(s0.ledger.supply, s0.db, s.db) && s0.ledger.supply <= token
        && token !in s.db.ops && s.db == s0.db && NoRow(s.db, token)
    {
      EnvOnly(s0, s, s.ledger.supply, rt);
      InvParts(s, rt);
      LastingSame(s0.ledger.supply, s0.db, s.db);
    }

    method CreateUntil(public: Id, deadline: int, ports: Ports, provenance: Provenance, awaitAdoption: bool, ghost s0: State)
      returns (r: Result<(Id, Ports)>, op: Operation)
      requires Valid() && Draws(s0, public)
      modifies this, repo, daemon
      ensures Valid() && old(now) <= now && old(ledger.supply) <= op.token && unchanged(this`process)
      ensures OnlyAttempt(s0, S(), op.token) && Lasting(s0.ledger.supply, s0.db, repo.T()) && s0.ledger.supply <= op.token
      ensures Remembers(if r.Ok? then Some(r.value.0) else None, op.token, awaitAdoption) && forall k <- old(jobs) :: k in jobs
      ensures r.Ok? ==> s0.ledger.supply <= r.value.0
      ensures r.Err? ==> IsWatched(op.token)
      ensures awaitAdoption ==> op.token in ledger.awaiting
      ensures UndoneFor(old(daemon.log), daemon.log, op.token)
      ensures old(faults) <= faults && (calm && faults == old(faults) && Available(old(repo.T()), public) ==> r.Ok?)
      ensures calm && r.Ok? ==> Runs(r.value.0, r.value.1)
      ensures r.Ok? ==>
        && op.token !in ledger.abandoned
        && IsCreated(r.value.0, op.token, deadline, r.value.1, awaitAdoption)
        && r.value.0 in timers && timers[r.value.0].expiresAt == deadline
        && (public != NONE ==> OwnerOf(repo.T(), r.value.0).value.id == public)
      ensures Older(s0.ledger.supply, old(timers), timers) && (r.Err? ==> Shut(op.token))
    {
      hide Inv, EnvStep, Absent, Trying, OnlyOp, NoRow, OnlyAttempt, At, IsCreated, Lasting, Older, NoTrespass, Consistent;
      OlderSame(s0.ledger.supply, timers);
      var begun;
      begun, op := BeginCreation(public, deadline, awaitAdoption, s0);
      TryMeans(s0, S(), op.token, Docker);
      if begun.Err? {
        return Err(begun.error), op;
      }
      r := CreateNative(op, ports, provenance, awaitAdoption, s0);
      if r.Err? {
        ghost var s1 := S();
        RetryOperation(op);
        EnvOnly(s1, S(), op.token, Docker);
        OnlyAttemptTrans(s0, s1, S(), op.token);
        EnvSame(s1, S());
        PassStays(s1, S(), op.token, None) by { InvParts(s1, Docker); }
      }
    }

    /** Create the container under the exact name and label of its intent. */
    method MakeContainer(op: Operation, ports: Ports, ghost s0: State) returns (r: Result<()>, n: Id)
      requires Valid() && Trying(s0, S(), op.token, Docker)
      requires Holds(S(), op) && NoRow(repo.T(), op.token) && Absent(daemon.containers, op.token)
      requires op.kind.Create? && op.nativeId == NONE
      modifies this`now, this`alive, this`ledger, this`faults, daemon
      ensures Valid() && old(now) <= now && Trying(s0, S(), op.token, Docker) && daemon.log == old(daemon.log)
      ensures ledger == old(ledger).(supply := ledger.supply) && n != NONE && s0.ledger.supply <= n
      ensures old(faults) <= faults && (faults == old(faults) ==> r.Ok?)
      ensures r.Ok? ==> n in daemon.containers
      ensures At(S(), op.token, Some(n)) && Unclaimed(repo.T(), n)
    {
      hide Inv, EnvStep, Absent, Trying, NoRow, At, Unclaimed;
      var f := Pass();
      TryPasses(s0, old(S()), S(), op.token, Docker, None);
      ghost var s1 := S();
      TryMeans(s0, s1, op.token, Docker);
      NewIsNot0(s1, Docker);
      n := ledger.supply;
      ledger := ledger.(supply := n + 1);
      var created := daemon.Create(n, op.nativeName, op.token, ports, f);
      NativeCreating(s0, s1, S(), op, Docker, Container(op.nativeName, op.token, false, false, ports));
      TryMeans(s0, S(), op.token, Docker);
      r := if created.Ok? then Ok(()) else Err(created.error);
    }

    /** Create the container, and take it to a committed row or roll it back. */
    method CreateNative(op: Operation, ports: Ports, provenance: Provenance, awaitAdoption: bool, ghost s0: State)
      returns (r: Result<(Id, Ports)>)
      requires Valid() && Trying(s0, S(), op.token, Docker)
      requires Holds(S(), op) && OnlyOp(repo.T(), op.token, op.id) && NoRow(repo.T(), op.token) && Absent(daemon.containers, op.token)
      requires op.kind.Create? && op.nativeId == NONE && op.deadline.Some? && op.runtime == Docker && op.id == op.token
      requires op.publicId == NONE || s0.ledger.supply <= op.publicId
      requires op.token !in ledger.abandoned && (op.token in ledger.awaiting <==> awaitAdoption)
      modifies this, repo, daemon
      ensures Valid() && old(now) <= now && unchanged(this`process, this`jobs)
      ensures Remembers(if r.Ok? then Some(r.value.0) else None, op.token, awaitAdoption) && old(ledger.awaiting) <= ledger.awaiting
      ensures r.Ok? ==> s0.ledger.supply <= r.value.0
      ensures OnlyAttempt(s0, S(), op.token) && Lasting(s0.ledger.supply, s0.db, repo.T())
      ensures UndoneFor(old(daemon.log), daemon.log, op.token)
      ensures old(faults) <= faults && (calm && faults == old(faults) ==> r.Ok?)
      ensures calm && r.Ok? ==> Runs(r.value.0, r.value.1)
      ensures r.Ok? ==>
        && op.token !in ledger.abandoned
        && IsCreated(r.value.0, op.token, op.deadline.value, r.value.1, awaitAdoption)
        && r.value.0 in timers && timers[r.value.0].expiresAt == op.deadline.value
        && (op.publicId != NONE ==> OwnerOf(repo.T(), r.value.0).value.id == op.publicId)
      ensures Older(s0.ledger.supply, old(timers), timers) && (r.Err? ==> Shut(op.token))
      ensures op.token in ledger.issued
    {
      hide Inv, EnvStep, Absent, Trying, OnlyOp, NoRow, OnlyAttempt, At, Unclaimed, Lasting, IsCreated, RowsOk, Consistent, NoTrespass, OwnerOf, Older;
      ghost var was := timers;
      OlderSame(s0.ledger.supply, was);
      var created, n := MakeContainer(op, ports, s0);
      TryMeans(s0, S(), op.token, Docker);
      if created.Err? {
        return Err(created.error);
      }
      var row := Sandbox(BoundTo(op, n).publicId, n, Docker, op.token, op.deadline, map[], provenance);
      BlankNames(S(), op, op, row, Docker);
      r := ProvisionOrUndo(op, row, awaitAdoption, s0);
      OlderStay(s0.ledger.supply, n, was, timers);
    }

    /** Take a created container to a committed row, or roll it back. */
    method ProvisionOrUndo(op: Operation, row: Sandbox, awaitAdoption: bool, ghost s0: State) returns (r: Result<(Id, Ports)>)
      requires Valid() && Provisioned(op, op, row, s0) && row.id !in repo.rows && op.nativeId == NONE && op.deadline.Some? && op.id == op.token
      requires s0.ledger.supply <= row.nativeId && row.nativeId != NONE && row.expiresAt == op.deadline && row.token == op.token
      requires row.id == BoundTo(op, row.nativeId).publicId && op.kind.Create?
      requires op.token !in ledger.abandoned && (op.token in ledger.awaiting <==> awaitAdoption)
      modifies this, repo, daemon
      ensures Valid() && old(now) <= now && unchanged(this`process, this`jobs)
      ensures Remembers(if r.Ok? then Some(r.value.0) else None, op.token, awaitAdoption) && old(ledger.awaiting) <= ledger.awaiting
      ensures OnlyAttempt(s0, S(), op.token) && Lasting(s0.ledger.supply, s0.db, repo.T()) && op.token in ledger.issued
      ensures UndoneFor(old(daemon.log), daemon.log, op.token)
      ensures old(faults) <= faults && (calm && faults == old(faults) && row.nativeId in old(daemon.containers) ==> r.Ok?)
      ensures calm && r.Ok? ==> Runs(r.value.0, r.value.1)
      ensures timers - {row.nativeId} == old(timers) - {row.nativeId} && (r.Err? ==> Shut(op.token))
      ensures r.Ok? ==>
        && r.value.0 == row.nativeId && op.token !in ledger.abandoned
        && IsCreated(row.nativeId, op.token, op.deadline.value, r.value.1, awaitAdoption)
        && row.nativeId in timers && timers[row.nativeId].expiresAt == op.deadline.value
        && OwnerOf(repo.T(), row.nativeId).Some? && OwnerOf(repo.T(), row.nativeId).value.id == row.id
    {
      hide Inv, EnvStep, Absent, Trying, OnlyOp, NoRow, OnlyAttempt, At, Unclaimed, Lasting, IsCreated, RowsOk, Consistent, NoTrespass, OwnerOf;
      ghost var stored;
      var done, known;
      done, known, stored := Provision(op, row, awaitAdoption, s0);
      TryMeans(s0, S(), op.token, Docker);
      if done.Err? {
        Rollback(known, row, stored, s0);
        TryMeans(s0, S(), op.token, Docker);
        return Err(done.error);
      }
      Register(op, known, row.(ports := done.value), awaitAdoption);
      return Ok((row.nativeId, done.value));
    }

    /** What a creation that failed leaves behind does not run, or could not be rolled back. */
    ghost predicate Shut(token: Id)
      reads this, repo, daemon
    {
      NoRow(repo.T(), token) || token in ledger.abandoned || Absent(daemon.containers, token)
    }

    /** A committed creation is remembered until its adoption, and gets its timer. */
    method Register(op: Operation, known: Operation, row: Sandbox, awaitAdoption: bool)
      requires Valid() && op.deadline.Some? && row.expiresAt == op.deadline && row.token == op.token && row.nativeId != NONE && op.id == op.token
      requires row.id in repo.rows && repo.rows[row.id] == row && At(S(), op.token, Some(row.nativeId))
      requires known == BoundTo(op, row.nativeId) && known.publicId == row.id && known.kind.Create? && OnlyOp(repo.T(), op.token, op.id)
      requires if awaitAdoption then Holds(S(), known) else op.id !in repo.ops
      modifies this`attempts, this`timers, this`serial
      ensures Valid() && row.nativeId in timers && timers[row.nativeId].expiresAt == op.deadline.value
      ensures IsCreated(row.nativeId, op.token, op.deadline.value, row.ports, awaitAdoption) && OwnerOf(repo.T(), row.nativeId) == Some(row)
      ensures Remembers(Some(row.nativeId), op.token, awaitAdoption)
      ensures timers - {row.nativeId} == old(timers) - {row.nativeId}
    {
      hide Inv, At, OnlyOp;
      CreatedFacts(S(), op, known, row, awaitAdoption, Docker);
      hide IntentOf, OwnerOf, Holds;
      if awaitAdoption {
        attempts := attempts[row.nativeId := known];
      }
      ScheduleDeadline(row.nativeId, op.deadline.value, op.deadline.value - now);
    }

    /******* Adoption, and what follows a failed one *******/

    /** The service takes over a created sandbox: its creation intent is retired. */
    method AdoptCreation(row: Sandbox) returns (r: Result<()>)
      requires Valid()
      modifies this, repo, daemon
      ensures Valid() && old(now) <= now && unchanged(this`jobs, this`process, this`timers) && daemon.log == old(daemon.log)
      ensures Onward(old(S()), S()) && Spares(old(S()), S(), {})
      ensures attempts == if r.Ok? then old(attempts) - {row.nativeId} else old(attempts)
      ensures row.id in old(repo.rows) ==> OnlyAttempt(old(S()), S(), old(repo.rows)[row.id].token)
      ensures row.id !in old(repo.rows) ==> EnvStep(old(S()), S()) && r.Err?
      ensures old(faults) <= faults && Lightly(old(repo.T()), repo.T())
      ensures faults == old(faults) && !process.closing && ProvenanceTx(old(repo.T()), row, true).Ok? ==> r.Ok?
      ensures r.Ok? ==>
        && var was := old(repo.rows)[row.id];
        && was.nativeId == row.nativeId && row.id in repo.rows
        && repo.rows[row.id] == was.(provenance := row.provenance) && row.nativeId !in attempts
        && (was.token !in old(ledger.abandoned) ==> IntentOf(repo.T(), was.token).None? && was.token in ledger.adopted)
      ensures KeepsTime()
    {
      hide Inv, EnvStep, OnlyAttempt, Onward, Kept, Spares, ProvenanceTx, IntentOf, Ticks;
      EnvRefl(S(), Docker);
      OnwardRefl(S());
      SparesRefl(S());
      if row.id in repo.rows {
        Unmoved(S(), repo.rows[row.id].token, Docker);
      }
      if process.closing {
        return Err(Closing);
      }
      var f := Pass();
      ghost var s1 := S();
      EnvOnward(old(S()), s1);
      EnvSame(old(S()), s1);
      EnvTicking(old(S()), s1, timers, Docker);
      r := WriteAdoption(row, f);
      LightlyTicks(s1, S(), timers);
      OnwardTrans(old(S()), s1, S());
      SparesStep(old(S()), s1, S());
      if row.id in old(repo.rows) {
        var token := old(repo.rows)[row.id].token;
        EnvOnly(old(S()), s1, token, Docker);
        OnlyAttemptTrans(old(S()), s1, S(), token);
      }
      if r.Ok? {
        attempts := attempts - {row.nativeId};
      }
    }

    /** Rows change in their provenance at most, and intents leave at most. */
    ghost predicate Lightly(t: Tables, t': Tables) {
      && t'.rows.Keys == t.rows.Keys && (forall k <- t.rows :: t'.rows[k] == t.rows[k].(provenance := t'.rows[k].provenance))
      && (forall o <- t'.ops :: o in t.ops && t'.ops[o] == t.ops[o])
    }

    lemma ProvenanceIsLight(t: Tables, row: Sandbox, adopt: bool, f: Fault, t': Tables, r: Result<()>)
      requires Transacted(t, ProvenanceTx(t, row, adopt), f, t', r)
      ensures Lightly(t, t')
    {
    }

    lemma LightlyTicks(s: State, s': State, timers: Clock)
      requires Lightly(s.db, s'.db) && s'.native == s.native && s'.ledger.abandoned == s.ledger.abandoned
      ensures Ticks(s, timers) ==> Ticks(s', timers)
    {
      hide Stopped;
      if Ticks(s, timers) {
        SameRowsTick(s, s', timers);
      }
    }

    /** The transaction of an adoption. */
    method WriteAdoption(row: Sandbox, f: Fault) returns (r: Result<()>)
      requires Valid()
      modifies this`ledger, repo
      ensures Valid() && Onward(old(S()), S()) && Spares(old(S()), S(), {})
      ensures row.id in old(repo.rows) ==> OnlyAttempt(old(S()), S(), old(repo.rows)[row.id].token)
      ensures row.id !in old(repo.rows) ==> S() == old(S()) && r.Err?
      ensures f.Clean? && ProvenanceTx(old(repo.T()), row, true).Ok? ==> r.Ok?
      ensures Lightly(old(repo.T()), repo.T())
      ensures r.Ok? ==>
        && var was := old(repo.rows)[row.id];
        && was.nativeId == row.nativeId && row.id in repo.rows && repo.rows[row.id] == was.(provenance := row.provenance)
        && (was.token !in old(ledger.abandoned) ==> IntentOf(repo.T(), was.token).None? && was.token in ledger.adopted)
      ensures ledger.abandoned == old(ledger.abandoned)
    {
      hide Inv, OnlyAttempt, Onward, Kept, Spares, IntentOf, ProvenanceTx;
      ghost var s1 := S();
      r := repo.UpdateProvenance(row, true, f);
      ProvenanceIsLight(s1.db, row, true, f, repo.T(), r);
      if row.id in repo.rows && !(exists k :: k in repo.ops && repo.ops[k].token == repo.rows[row.id].token) {
        ledger := ledger.(adopted := ledger.adopted + {repo.rows[row.id].token});
      }
      Adopting(s1, S(), row, Docker, f, r);
    }

    /** A failed adoption hands the attempt to the background recovery. */
    method CreationFailed(n: Id)
      requires Valid()
      modifies this`jobs
      ensures Valid()
      ensures jobs == if !process.quit && n in attempts && attempts[n].id !in old(jobs) then old(jobs)[attempts[n].id := attempts[n]] else old(jobs)
    {
      if n in attempts {
        QueueOperation(attempts[n]);
      }
    }

    /** Undo a created sandbox: at once, or in the background. A failure leaves it as it was, with nothing pending,
        exactly if nothing was pending before and the deletion was not recorded. */
    method DiscardCreated(n: Id) returns (r: Result<()>)
      requires Valid()
      modifies this, repo, daemon
      ensures Valid() && old(now) <= now && OnlyOwner(old(S()), S(), n, true) && unchanged(this`process) && old(daemon.log) <= daemon.log && old(faults) <= faults
      ensures OwnerOf(old(repo.T()), n).None? ==> r.Err? && repo.T() == old(repo.T())
      ensures faults == old(faults) && !process.closing && Admits(old(repo.T()), n, Kind.Delete) ==> r.Ok?
      ensures r.Ok? ==> IsGone(OwnerOf(old(repo.T()), n).value) && attempts == old(attempts) - {n}
      ensures r.Err? && OwnerOf(old(repo.T()), n).Some? ==>
        var token := OwnerOf(old(repo.T()), n).value.token;
        Lingers(repo.T(), token) <==> Lingers(old(repo.T()), token) && repo.T() == old(repo.T())
      ensures r.Err? ==> attempts == old(attempts) && (n in attempts && !process.quit ==> attempts[n].id in jobs)
      ensures forall k <- old(jobs) :: k in jobs
      ensures KeepsTime()
    {
      hide Inv, OnlyOwner, RowOf, IntentOf, OwnerOf, Absent, Lingers, Admits, Ticks;
      r := Remove(n);
      if r.Err? {
        CreationFailed(n);
      } else {
        attempts := attempts - {n};
      }
    }

    /** A row is marked with the reason why the rollback of its creation failed. This is one transaction outside the
        lifecycle lock. */
    method Mark(row: Sandbox) returns (r: Result<()>)
      requires Valid()
      modifies this`now, this`alive, this`ledger, this`faults, daemon`containers, repo
      ensures Valid() && old(now) <= now && Onward(old(S()), S()) && Spares(old(S()), S(), {})
      ensures old(faults) <= faults && (faults == old(faults) && ProvenanceTx(old(repo.T()), row, false).Ok? ==> r.Ok?)
      ensures repo.ops == old(repo.ops) && repo.rows.Keys == old(repo.rows.Keys)
      ensures forall k <- repo.rows :: repo.rows[k] == old(repo.rows)[k].(provenance := repo.rows[k].provenance)
      ensures r.Ok? ==> row.id in repo.rows && repo.rows[row.id].provenance == row.provenance && repo.rows[row.id].nativeId == row.nativeId
      ensures KeepsTime()
    {
      hide Inv, Onward, EnvStep, Spares, Ticks;
      ghost var s0 := S();
      var f := Pass();
      ghost var s1 := S();
      EnvOnward(s0, s1);
      EnvSame(s0, s1);
      EnvTicking(s0, s1, timers, Docker);
      r := repo.UpdateProvenance(row, false, f);
      Marking(s1, S(), row, Docker, f, r);
      OnwardTrans(s0, s1, S());
      LightlyTicks(s1, S(), timers);
      SparesStep(s0, s1, S());
    }

    /******* Background recovery *******/

    /** The attempt of op is undone: none of its rows is left. */
    ghost predicate Undoes(op: Operation)
      reads repo
    {
      Undoing(op.kind) && forall k <- repo.rows :: repo.rows[k].token != op.token
    }

    /** The work of one job. A job is finished only when its intent is retired. */
    method RunJob(id: Id) returns (r: Result<()>)
      requires Valid() && id in jobs
      modifies this, repo, daemon
      ensures Valid() && old(now) <= now && unchanged(this`process)
      ensures jobs == if r.Ok? then old(jobs) - {id} else old(jobs)
      ensures r.Ok? ==> id !in repo.ops
      ensures id !in old(repo.ops) ==> EnvStep(old(S()), S())
      ensures id in old(repo.ops) ==> OnlyAttempt(old(S()), S(), old(repo.ops)[id].token) && Kept(old(repo.T()), repo.T())
      ensures Onward(old(S()), S()) && Spares(old(S()), S(), {})
      ensures attempts == if r.Ok? && id in old(repo.ops) && Undoing(old(repo.ops)[id].kind) then old(attempts) - {old(repo.ops)[id].nativeId} else old(attempts)
      ensures r.Ok? && id in old(repo.ops) && Undoing(old(repo.ops)[id].kind) ==> Undoes(old(repo.ops)[id])
      ensures id in old(repo.ops) && (old(jobs)[id].token != old(repo.ops)[id].token || old(jobs)[id].runtime != old(repo.ops)[id].runtime) ==>
        r.Err? && repo.T() == old(repo.T())
      ensures id in old(repo.ops) && old(jobs)[id] == old(repo.ops)[id] && !old(process.closing) && faults == old(faults) ==>
        r.Ok? || r.error == Deferred
      ensures (&& id in old(repo.ops) && old(jobs)[id] == old(repo.ops)[id] && !old(process.closing) && faults == old(faults) && calm
               && Steady(old(daemon.containers), old(repo.ops)[id].token)) ==> r.Ok?
      ensures Justified(old(daemon.log), daemon.log)
      ensures KeepsTime()
    {
      hide Inv, EnvStep, During, After, OnlyAttempt, Kept, Steady, Onward, Spares, Ticks, NoTrespass, Stopped, TimersFollow, OthersTimed;
      EnvRefl(S(), Docker);
      OnwardRefl(S());
      SparesRefl(S());
      if id in repo.ops {
        Unmoved(S(), repo.ops[id].token, Docker);
        KeptRefl(repo.T());
      }
      if process.closing {
        return Err(Closing);
      }
      var f := Pass();
      ghost var s1 := S();
      EnvOnward(old(S()), s1);
      EnvTicking(old(S()), s1, timers, Docker);
      EnvSame(old(S()), s1);
      if id in repo.ops {
        EnvOnly(old(S()), s1, repo.ops[id].token, Docker);
      }
      if !f.Clean? {
        return Err(Store);
      }
      if id in repo.ops {
        var current := repo.ops[id];
        if current.runtime != jobs[id].runtime || current.token != jobs[id].token {
          return Err(Mismatch);
        }
        StoredIsHeld(s1, id, Docker);
        r := Reconcile(current);
        AttemptEnds(s1, S(), current, Docker, calm);
        OnlyAttemptTrans(old(S()), s1, S(), current.token);
        OnwardTrans(old(S()), s1, S());
        SparesStep(old(S()), s1, S());
        if r.Err? {
          return;
        }
        AfterRows(s1, S(), current, Docker, calm);
        if Undoing(current.kind) {
          attempts := attempts - {current.nativeId};
        }
      }
      jobs := jobs - {id};
      return Ok(());
    }

    /******* Startup *******/

    /** Every pending intent gets a job before any native call is made. */
    method RegisterIntents(ops: seq<Operation>) returns (r: Result<()>)
      requires Valid() && !process.closing
      requires forall i | 0 <= i < |ops| :: Holds(S(), ops[i])
      modifies this`now, this`alive, this`ledger, this`faults, daemon`containers, this`timers, this`serial, this`jobs
      ensures Valid() && EnvStep(old(S()), S()) && old(now) <= now && old(faults) <= faults && (calm ==> S() == old(S()))
      ensures ledger == old(ledger).(supply := ledger.supply)
      ensures faults == old(faults) ==> r.Ok?
      ensures r.Ok? && !process.quit ==> forall i | 0 <= i < |ops| :: ops[i].id in jobs
      ensures forall k <- old(jobs) :: k in jobs
      ensures KeepsTime() && old(timers.Keys) <= timers.Keys
      ensures r.Ok? ==> forall i | 0 <= i < |ops| && !ops[i].kind.Create? && ops[i].deadline.Some? :: ops[i].nativeId in timers
    {
      hide Inv, EnvStep, Ticks;
      ghost var was := timers;
      EnvRefl(S(), Docker);
      for i := 0 to |ops|
        invariant Valid() && EnvStep(old(S()), S()) && old(now) <= now && old(faults) <= faults && (calm ==> S() == old(S()))
        invariant ledger == old(ledger).(supply := ledger.supply)
        invariant repo.T() == old(repo.T())
        invariant !process.quit ==> forall j | 0 <= j < i :: ops[j].id in jobs
        invariant forall k <- old(jobs) :: k in jobs
        invariant KeepsTime() && was.Keys <= timers.Keys
        invariant forall j | 0 <= j < i && !ops[j].kind.Create? && ops[j].deadline.Some? :: ops[j].nativeId in timers
      {
        ghost var s0 := S();
        var f := Pass();
        EnvChain(old(S()), s0, S(), Docker);
        EnvTicking(s0, S(), timers, Docker);
        if !f.Clean? {
          return Err(Store);
        }
        assert Holds(S(), ops[i]);
        StoredIsValid(S(), ops[i], Docker);
        var valid := repo.ValidateOperation(ops[i]);
        if !valid {
          return Err(Mismatch);
        }
        StoredIsShaped(S(), ops[i], Docker);
        if !WellShaped(ops[i]) {
          return Err(Invalid);
        }
        ghost var s1 := S();
        ghost var before := timers;
        RetryOperation(ops[i]);
        SameKeys(ops[i].nativeId, before, timers);
        EnvChain(old(S()), s1, S(), Docker);
      }
      return Ok(());
    }

    /** Every durable deadline gets its timer. */
    method RegisterDeadlines(rows: seq<Sandbox>)
      requires forall i | 0 <= i < |rows| :: rows[i].nativeId != NONE
      requires forall i, j | 0 <= i < |rows| && 0 <= j < |rows| && rows[i].nativeId == rows[j].nativeId :: rows[i] == rows[j]
      modifies this`timers, this`serial
      ensures forall i | 0 <= i < |rows| && rows[i].runtime.Docker? && rows[i].expiresAt.Some? ::
        rows[i].nativeId in timers && timers[rows[i].nativeId].expiresAt == rows[i].expiresAt.value
        && timers[rows[i].nativeId].fireAt == (if rows[i].expiresAt.value > now then rows[i].expiresAt.value else now + RETRY_DELAY)
      ensures old(timers.Keys) <= timers.Keys
      ensures forall n <- timers :: n in old(timers) || exists i :: 0 <= i < |rows| && rows[i].nativeId == n && rows[i].runtime.Docker? && rows[i].expiresAt.Some?
    {
      ghost var was := timers;
      for i := 0 to |rows|
        invariant was.Keys <= timers.Keys
        invariant forall j | 0 <= j < i && rows[j].runtime.Docker? && rows[j].expiresAt.Some? ::
          rows[j].nativeId in timers && timers[rows[j].nativeId].expiresAt == rows[j].expiresAt.value
          && timers[rows[j].nativeId].fireAt == (if rows[j].expiresAt.value > now then rows[j].expiresAt.value else now + RETRY_DELAY)
        invariant forall n <- timers :: n in was || exists j :: 0 <= j < i && rows[j].nativeId == n && rows[j].runtime.Docker? && rows[j].expiresAt.Some?
      {
        var row := rows[i];
        if row.runtime != Docker || row.expiresAt.None? {
          continue;
        }
        ghost var before := timers;
        var delay := row.expiresAt.value - now;
        if delay <= 0 {
          delay := RETRY_DELAY;
        }
        ScheduleDeadline(row.RuntimeId(), row.expiresAt.value, delay);
        SameKeys(row.RuntimeId(), before, timers);
        FewerTimers(row.RuntimeId(), before, timers, before.Keys);
        forall j | 0 <= j < i && rows[j].nativeId != row.RuntimeId() && rows[j].nativeId in before
          ensures rows[j].nativeId in timers && timers[rows[j].nativeId] == before[rows[j].nativeId]
        {
          assert rows[j].nativeId in before - {row.RuntimeId()};
        }
      }
    }

    /** The timers after one intent. */
    lemma StaysArmed(t: Tables, s: State, op: Operation, was: Clock, lost: bool, lost': bool, done: bool)
      requires Inv(s, Docker) && Valid() && Holds(s, op) && op.id in t.ops && t.ops[op.id] == op && (lost ==> lost')
      requires Armed(t, s.db, was, lost) && Promised(s.db, was) && OthersTimed(repo.T(), op.token, was, timers)
      requires During(s, S(), op, Docker, calm) || After(s, S(), op, Docker, calm)
      requires if done then After(s, S(), op, Docker, calm) && TimersFollow(was, op)
               else timers == was && (lost' || During(s, S(), op, Docker, calm))
      ensures Armed(t, repo.T(), timers, lost') && Promised(repo.T(), timers)
    {
      hide Inv, Armed, Promised, OthersTimed, During, After, StartPending;
      StartIsPending(t, op);
      LostArmed(t, s.db, was, lost, lost');
      if done && !Undoing(op.kind) {
        RowFollows(was, op);
      }
      hide TimersFollow;
      ReconciledArmed(t, s, S(), op, was, timers, lost', done, Docker, calm);
      StillPromised(s, S(), op, was, timers, Docker, calm);
    }

    lemma StartIsPending(t: Tables, op: Operation)
      requires op.id in t.ops && t.ops[op.id] == op
      ensures op.kind.Start? || op.kind.Restart? ==> StartPending(t, op.token, op.deadline)
    {
    }

    lemma RowFollows(was: Clock, op: Operation)
      requires TimersFollow(was, op) && !Undoing(op.kind)
      ensures Follows(repo.T(), op, timers)
    {
    }

    ghost predicate AllSteady(native: Natives) {
      forall n <- native :: !native[n].restarting
    }

    /** The first i intents are retired, and no container is just restarting. */
    ghost predicate Cleared(ops: seq<Operation>, i: nat, s: State) {
      AllSteady(s.native) && forall j | 0 <= j < i && j < |ops| :: ops[j].id !in s.db.ops
    }

    lemma NoneCleared(ops: seq<Operation>, s: State)
      ensures AllSteady(s.native) ==> Cleared(ops, 0, s)
    {
    }

    lemma SteadyHere(ops: seq<Operation>, i: nat, s: State, token: Id)
      ensures Cleared(ops, i, s) ==> Steady(s.native, token)
    {
    }

    lemma ClearedNext(ops: seq<Operation>, i: nat, s: State, s': State)
      requires i < |ops| && Holds(s, ops[i]) && After(s, s', ops[i], Docker, true)
      ensures Cleared(ops, i, s) ==> Cleared(ops, i + 1, s')
    {
      hide Inv, OnlyAttempt, Kept, Outcome;
    }

    /** Recovery of every intent, until the warm-up budget is spent. */
    method ReconcileAll(ops: seq<Operation>, budget: nat) returns (r: Result<()>)
      requires Valid()
      requires forall i | 0 <= i < |ops| :: Holds(S(), ops[i])
      requires forall i, j | 0 <= i < j < |ops| :: ops[i].id != ops[j].id
      requires Armed(repo.T(), repo.T(), timers, false) && Promised(repo.T(), timers)
      modifies this, repo, daemon
      ensures Valid() && old(now) <= now && Kept(old(repo.T()), repo.T()) && unchanged(this`jobs, this`process, this`attempts)
      ensures forall k <- repo.ops :: k in old(repo.ops)
      ensures Onward(old(S()), S()) && Spares(old(S()), S(), {}) && Dated(old(repo.T()), repo.T())
      ensures old(faults) <= faults
      ensures Swept(old(daemon.log), daemon.log, old(repo.T()))
      ensures KeepsTime() && Armed(old(repo.T()), repo.T(), timers, faults != old(faults))
      ensures faults == old(faults) && calm && AllSteady(old(daemon.containers)) && |ops| <= budget ==> r.Ok? && Cleared(ops, |ops|, S())
    {
      hide Inv, EnvStep, During, After, OnlyAttempt, Kept, Onward, Spares, Dated, Ticks, Armed, Promised, OthersTimed, Follows, StartPending, Cleared, AllSteady, Steady;
      ghost var good := calm && AllSteady(daemon.containers) && |ops| <= budget;
      NoneCleared(ops, S());
      ghost var t := repo.T();
      KeptRefl(t);
      DatedRefl(t);
      OnwardRefl(S());
      SparesRefl(S());
      SweptNothing(daemon.log, t);
      assert forall j | 0 <= j < |ops| :: ops[j].id in t.ops && t.ops[ops[j].id] == ops[j];
      for i := 0 to |ops|
        invariant Valid() && old(now) <= now && Kept(t, repo.T()) && unchanged(this`jobs, this`process, this`attempts)
        invariant forall k <- repo.ops :: k in old(repo.ops)
        invariant forall j | i <= j < |ops| :: Holds(S(), ops[j])
        invariant Onward(old(S()), S()) && Spares(old(S()), S(), {}) && Dated(t, repo.T())
        invariant old(faults) <= faults
        invariant good && faults == old(faults) ==> Cleared(ops, i, S())
        invariant KeepsTime() && Armed(t, repo.T(), timers, faults != old(faults)) && Promised(repo.T(), timers)
        invariant Swept(old(daemon.log), daemon.log, old(repo.T()))
      {
        if i >= budget {
          break;
        }
        ghost var s, log, was, lost := S(), daemon.log, timers, faults != old(faults);
        SteadyHere(ops, i, s, ops[i].token);
        r := Reconcile(ops[i]);
        if calm && r.Ok? {
          ClearedNext(ops, i, s, S());
        }
        StaysArmed(t, s, ops[i], was, lost, faults != old(faults), r.Ok?);
        AttemptEnds(s, S(), ops[i], Docker, calm);
        AttemptDates(t, s, S(), ops[i], Docker, calm);
        OnwardTrans(old(S()), s, S());
        SparesStep(old(S()), s, S());
        KeptTrans(t, s.db, repo.T());
        SweptFor(old(daemon.log), log, daemon.log, t, ops[i]);
        forall j | i < j < |ops| ensures Holds(S(), ops[j]) {
          OtherHolds(s, S(), ops[i], ops[j], Docker);
        }
        var late: bool := *;
        if r.Err? && r.error != Deferred && !(late && i + 1 >= budget) {
          return;
        }
      }
      return Ok(());
    }

    /** The new entries of the startup are of three kinds: made for an intent that was pending in the tables t; made at
        or after the durable deadline of their row; or made for a row that was overdue in t, under the deadline of
        a start or restart that was pending in t. */
    ghost predicate Swept(log: seq<Effect>, log': seq<Effect>, t: Tables) {
      && log <= log'
      && forall i | |log| <= i < |log'| ::
           || (log'[i].actor.id in t.ops && t.ops[log'[i].actor.id] == log'[i].actor)
           || (log'[i].due.Some? && log'[i].due.value <= log'[i].at)
           || (WasOverdue(t, log'[i].owner, log'[i].at) && StartPending(t, log'[i].owner, log'[i].due))
    }

    ghost predicate WasOverdue(t: Tables, token: Id, at: int) {
      exists k :: k in t.rows && t.rows[k].token == token && t.rows[k].expiresAt.Some? && t.rows[k].expiresAt.value <= at
    }

    lemma SweptFor(log: seq<Effect>, log1: seq<Effect>, log2: seq<Effect>, t: Tables, op: Operation)
      requires Swept(log, log1, t) && log1 <= log2 && op.id in t.ops && t.ops[op.id] == op
      requires forall i | |log1| <= i < |log2| :: log2[i].actor == op
      ensures Swept(log, log2, t)
    {
      hide WasOverdue, StartPending;
    }

    predicate Overdue(row: Sandbox, at: int) {
      row.runtime.Docker? && row.expiresAt.Some? && row.expiresAt.value <= at
    }

    lemma NoIntent(t: Tables, token: Id)
      ensures t.ops == map[] ==> IntentOf(t, token).None?
    {
    }

    /** When nothing was pending, and the sweep has stopped the sandbox if it was overdue, nothing is pending afterwards. */
    lemma SweptIsQuiet(s: State, row: Sandbox, at: int)
      requires Valid() && Inv(s, Docker) && OnlyOwner(s, S(), row.nativeId, false) && s.db.ops == map[]
      requires !Overdue(row, at) ==> repo.T() == s.db
      requires OwnerOf(s.db, row.nativeId).Some? && Overdue(row, at) && Idle(s, row.nativeId) ==> IsStopped(OwnerOf(s.db, row.nativeId).value)
      ensures repo.ops == map[] && (Overdue(row, at) ==> Quiet(S(), row.nativeId))
    {
      hide Inv, Apart, Kept, Moves, Stopped, NoTrespass, Idle, Quiet, Overdue, EnvStep;
      var n := row.nativeId;
      if Overdue(row, at) {
        if OwnerOf(s.db, n).Some? {
          var own := OwnerOf(s.db, n).value;
          OwnerToken(s, n, Docker);
          NoIntent(s.db, own.token);
          IdleMeans(s, n);
          OwnerNow(S(), own.(expiresAt := None), n, Docker);
          StoppedIsQuiet(S(), n);
          forall o | o in repo.ops ensures repo.ops[o].token != own.token {
          }
          NothingElse(s.db, repo.T(), own.token);
        } else {
          EnvSame(s, S());
          StoppedIsQuiet(S(), n);
        }
      }
    }

    lemma NothingElse(t: Tables, t': Tables, token: Id)
      requires t.ops == map[] && OtherOps(t, token) == OtherOps(t', token) && forall o <- t'.ops :: t'.ops[o].token != token
      ensures t'.ops == map[]
    {
      if o :| o in t'.ops {
        OtherOpIs(t, t', token, o);
        assert false;
      }
    }

    /** One row of the startup sweep, as it was read before the intents were recovered. */
    method SweepOverdue(row: Sandbox) returns (r: Result<()>)
      requires Valid() && row.nativeId != NONE
      modifies this, repo, daemon
      ensures Valid() && old(now) <= now && OnlyOwner(old(S()), S(), row.nativeId, false) && unchanged(this`process, this`attempts)
      ensures old(faults) <= faults
      ensures forall k <- old(jobs) :: k in jobs
      ensures Relaxed(old(repo.T()), repo.T())
      ensures OwnerOf(old(repo.T()), row.nativeId).None? ==> daemon.log == old(daemon.log)
      ensures OwnerOf(old(repo.T()), row.nativeId).Some? ==>
        var own := OwnerOf(old(repo.T()), row.nativeId).value;
        && StoppedFor(old(daemon.log), daemon.log, own, old(now), now)
        && (daemon.log == old(daemon.log) || (row.expiresAt.Some? && row.expiresAt.value <= old(now) && own.expiresAt.Some? && Idle(old(S()), row.nativeId)))
        && (Overdue(row, old(now)) && Idle(old(S()), row.nativeId) && faults == old(faults) && calm && old(IsUp(row.nativeId))
            ==> old(daemon.log) < daemon.log)
        && (Overdue(row, old(now)) && Idle(old(S()), row.nativeId) && faults == old(faults) ==> IsStopped(own))
      ensures KeepsTime()
      ensures timers == old(timers) || (OwnerOf(old(repo.T()), row.nativeId).Some? && timers == old(timers) - {row.nativeId}
                                        && IsStopped(OwnerOf(old(repo.T()), row.nativeId).value))
      ensures faults == old(faults) ==> r.Ok?
      ensures !Overdue(row, old(now)) ==> repo.T() == old(repo.T())
    {
      hide Inv, EnvStep, OnlyOwner, Stopped, StoppedFor, OwnerOf, IntentOf, Consistent, NoTrespass, IsStopped, Idle, Relaxed, Ticks;
      EnvIsOwner(S(), row.nativeId, Docker);
      RelaxedSame(repo.T(), repo.T());
      if row.runtime != Docker || row.expiresAt.None? || row.expiresAt.value > now {
        ActedNothing(daemon.log, OwnerOf(repo.T(), row.nativeId), now, now);
        return Ok(());
      }
      ghost var s0 := S();
      var f := Pass();
      EnvTicking(s0, S(), timers, Docker);
      EnvSame(s0, S());
      ActedNothing(daemon.log, OwnerOf(s0.db, row.nativeId), old(now), now);
      if !f.Clean? {
        return Err(Store);
      }
      ghost var s1 := S();
      InvParts(s1, Docker);
      var pending := repo.FindPending(row.RuntimeId());
      if OwnerOf(s0.db, row.nativeId).Some? {
        IdleMeans(s0, row.nativeId);
        NoIntent(s0.db, OwnerOf(s0.db, row.nativeId).value.token);
      }
      if pending.Some? {
        return Ok(());
      }
      if OwnerOf(s1.db, row.nativeId).Some? {
        IdleMeans(s1, row.nativeId);
        if OwnerOf(s1.db, row.nativeId).value.expiresAt.None? {
          IdleIsStopped(s1, row.nativeId, Docker);
        }
      }
      ghost var at := now;
      var stopped := StopLocked(row.RuntimeId());
      OwnerPasses(s0, s1, S(), row.nativeId, false, Docker);
      if OwnerOf(s0.db, row.nativeId).Some? {
        SinceEarlier(daemon.log, old(daemon.log), OwnerOf(s0.db, row.nativeId).value, old(now), at, now);
      }
      return if Halted(stopped) then Ok(()) else stopped;
    }

    /** Rows that were listed name different containers. */
    lemma ListedRows(t: Tables, rows: seq<Sandbox>, rt: Runtime)
      requires RowsOk(t.rows, rt) && forall i | 0 <= i < |rows| :: rows[i].id in t.rows && t.rows[rows[i].id] == rows[i]
      ensures forall i | 0 <= i < |rows| :: rows[i].nativeId != NONE
      ensures forall i, j | 0 <= i < |rows| && 0 <= j < |rows| && rows[i].nativeId == rows[j].nativeId :: rows[i] == rows[j]
    {
    }

    /** The warm-up budget counts turns of the two loops. Startup: register every intent and every deadline, recover what the warm-up budget allows, and stop what
        was overdue. Whatever fails after the registration, no intent is left without a job. */
    method Recover(budget: nat) returns (r: Result<()>, ghost registered: bool)
      requires Valid()
      modifies this, repo, daemon
      ensures Valid() && old(now) <= now && Kept(old(repo.T()), repo.T()) && attempts == old(attempts)
      ensures process == old(process).(ready := old(process.ready) || registered) && forall k <- old(jobs) :: k in jobs
      ensures Onward(old(S()), S()) && Spares(old(S()), S(), {})
      ensures Swept(old(daemon.log), daemon.log, old(repo.T()))
      ensures r.Ok? ==> registered
      ensures registered && !process.quit ==> forall k <- repo.ops :: k in old(repo.ops) ==> k in jobs
      ensures faults == old(faults) && !process.closing ==> registered
      ensures registered ==> Armed(old(repo.T()), repo.T(), timers, faults != old(faults)) && Ticks(S(), timers)
      ensures !registered ==> KeepsTime()
      ensures faults == old(faults) && calm && !old(process.closing) && AllSteady(old(daemon.containers)) && |old(repo.ops)| + |old(repo.rows)| <= budget ==>
        && r.Ok? && repo.ops == map[]
        && forall k <- old(repo.rows) :: Overdue(old(repo.rows)[k], old(now)) ==> Quiet(S(), old(repo.rows)[k].nativeId)
    {
      hide Inv, EnvStep, Kept, Swept, Onward, Spares, Linked, NoTrespass, Ticks, Armed, Promised, Rested, Quiet, AllSteady;
      registered := false;
      KeptRefl(repo.T());
      SweptNothing(daemon.log, repo.T());
      OnwardRefl(S());
      SparesRefl(S());
      if process.closing {
        return Err(Closing), false;
      }
      ghost var s0 := S();
      var f, ops, rows := ReadDurable();
      ghost var s2 := S();
      EnvOnward(s0, s2);
      EnvSame(s0, s2);
      if !f.Clean? {
        return Err(Store), false;
      }
      r := RegisterIntents(ops);
      ghost var s3 := S();
      EnvOnward(s2, s3);
      EnvSame(s2, s3);
      OnwardTrans(s0, s2, s3);
      SparesStep(s0, s2, s3);
      if r.Err? {
        return;
      }
      registered := true;
      IntentsPromised(ops);
      ghost var was := timers;
      RegisterDeadlines(rows);
      PromisedMore(repo.T(), was, timers);
      Registered(S(), rows, timers, Docker);
      process := process.(ready := true);
      ghost var before, since := faults, now;
      r := RecoverWarm(ops, rows, budget);
      LostArmed(s0.db, repo.T(), timers, faults != before, faults != old(faults));
      OnwardTrans(s0, s3, S());
      SparesStep(s0, s3, S());
      if Rested(rows, |rows|, since, S()) {
        AllRested(s0.db, rows, old(now), since, S());
      }
    }

    /** Every pending intent and every row, as they are at the start. */
    method ReadDurable() returns (f: Fault, ops: seq<Operation>, rows: seq<Sandbox>)
      requires Valid()
      modifies this`now, this`alive, this`ledger, this`faults, daemon`containers
      ensures Valid() && old(now) <= now && EnvStep(old(S()), S()) && (f.Clean? <==> faults == old(faults))
      ensures f.Clean? ==>
        && (forall i | 0 <= i < |ops| :: Holds(S(), ops[i]))
        && (forall i, j | 0 <= i < j < |ops| :: ops[i].id != ops[j].id)
        && (forall k <- repo.ops :: repo.ops[k] in ops && repo.ops[k].id == k)
        && (forall i | 0 <= i < |rows| :: rows[i].id in repo.rows && repo.rows[rows[i].id] == rows[i] && rows[i].nativeId != NONE)
        && (forall k <- repo.rows :: repo.rows[k] in rows)
        && (forall i, j | 0 <= i < |rows| && 0 <= j < |rows| && rows[i].nativeId == rows[j].nativeId :: rows[i] == rows[j])
      ensures KeepsTime()
      ensures calm ==> S() == old(S())
      ensures f.Clean? ==> |ops| == |repo.ops| && |rows| == |repo.rows|
    {
      hide Inv, EnvStep, Linked, NoTrespass, WellShaped, Clash, Ticks;
      ops, rows := [], [];
      ghost var s0 := S();
      f := Pass();
      ghost var s1 := S();
      EnvTicking(s0, s1, timers, Docker);
      if !f.Clean? {
        return;
      }
      InvParts(s1, Docker);
      ops := repo.Operations();
      f := Pass();
      EnvChain(s0, s1, S(), Docker);
      EnvTicking(s1, S(), timers, Docker);
      if !f.Clean? {
        return;
      }
      InvParts(S(), Docker);
      rows := repo.FindAll();
      ListedRows(repo.T(), rows, Docker);
      hide RowsOk;
    }

    /** A timer that the sweep has dropped belonged to a row that has no deadline any more. */
    lemma StoppedIsUndated(s: State, n: Id, was: Clock)
      requires Valid() && Inv(s, Docker)
      requires timers == was || (OwnerOf(s.db, n).Some? && timers == was - {n} && IsStopped(OwnerOf(s.db, n).value))
      ensures RowsOk(s.db.rows, Docker)
      ensures timers == was || (timers == was - {n} && forall k <- repo.rows :: repo.rows[k].nativeId == n ==> repo.rows[k].expiresAt.None?)
    {
      InvParts(s, Docker);
      if timers != was {
        OwnerToken(s, n, Docker);
        InvParts(S(), Docker);
        hide Inv, Known, Labelled, NoOrphan, Timed, Adoptable, Stopped;
      }
    }

    lemma IntentsPromised(ops: seq<Operation>)
      requires forall k <- repo.ops :: repo.ops[k] in ops
      requires forall i | 0 <= i < |ops| && !ops[i].kind.Create? && ops[i].deadline.Some? :: ops[i].nativeId in timers
      ensures Promised(repo.T(), timers)
    {
    }

    /** Nothing is pending, and of the first i rows those that were overdue have an owner at rest without a deadline. */
    ghost predicate Rested(rows: seq<Sandbox>, i: nat, since: int, s: State) {
      s.db.ops == map[] && forall j | 0 <= j < i && j < |rows| && Overdue(rows[j], since) :: Quiet(s, rows[j].nativeId)
    }

    lemma NoneRested(rows: seq<Sandbox>, since: int, s: State)
      ensures s.db.ops == map[] ==> Rested(rows, 0, since, s)
    {
    }

    lemma NothingPends(rows: seq<Sandbox>, i: nat, since: int, s: State)
      ensures Rested(rows, i, since, s) ==> s.db.ops == map[]
    {
    }

    lemma AllCleared(ops: seq<Operation>, t: Tables, s: State)
      requires Cleared(ops, |ops|, s) && Lists(ops, t.ops) && forall k <- s.db.ops :: k in t.ops
      ensures s.db.ops == map[]
    {
      if k :| k in s.db.ops {
        assert false;
      }
    }

    /** The next row is at rest as well, and those before it stay so. */
    lemma RestedNext(rows: seq<Sandbox>, i: nat, since: int, at: int, s: State, s': State)
      requires i < |rows| && Inv(s, Docker) && Inv(s', Docker) && OnlyOwner(s, s', rows[i].nativeId, false) && since <= at
      requires forall j | 0 <= j < i && rows[j].nativeId == rows[i].nativeId :: rows[j] == rows[i]
      ensures Rested(rows, i, since, s) && s'.db.ops == map[] && (Overdue(rows[i], at) ==> Quiet(s', rows[i].nativeId)) ==>
        Rested(rows, i + 1, since, s')
    {
      hide Inv, OnlyOwner, Quiet;
      if Rested(rows, i, since, s) && s'.db.ops == map[] && (Overdue(rows[i], at) ==> Quiet(s', rows[i].nativeId)) {
        forall j | 0 <= j < i && Overdue(rows[j], since) && rows[j].nativeId != rows[i].nativeId ensures Quiet(s', rows[j].nativeId) {
          QuietStays(s, s', rows[j].nativeId, rows[i].nativeId, false, Docker);
        }
      }
    }

    lemma AllRested(t: Tables, rows: seq<Sandbox>, was: int, since: int, s: State)
      requires Rested(rows, |rows|, since, s) && was <= since && forall k <- t.rows :: t.rows[k] in rows
      ensures s.db.ops == map[] && forall k <- t.rows :: Overdue(t.rows[k], was) ==> Quiet(s, t.rows[k].nativeId)
    {
      hide Quiet;
    }

    /** Every intent is in the list. */
    ghost predicate Lists(list: seq<Operation>, ops: map<Id, Operation>) {
      forall k <- ops :: ops[k] in list && ops[k].id == k
    }

    /** The part of the startup that spends the warm-up budget. */
    method RecoverWarm(ops: seq<Operation>, rows: seq<Sandbox>, budget: nat) returns (r: Result<()>)
      requires Valid()
      requires forall i | 0 <= i < |ops| :: Holds(S(), ops[i])
      requires forall i, j | 0 <= i < j < |ops| :: ops[i].id != ops[j].id
      requires forall i | 0 <= i < |rows| :: rows[i].id in repo.rows && repo.rows[rows[i].id] == rows[i] && rows[i].nativeId != NONE
      requires forall i, j | 0 <= i < |rows| && 0 <= j < |rows| && rows[i].nativeId == rows[j].nativeId :: rows[i] == rows[j]
      requires Armed(repo.T(), repo.T(), timers, false) && Promised(repo.T(), timers)
      modifies this, repo, daemon
      ensures old(faults) <= faults
      ensures Valid() && old(now) <= now && Kept(old(repo.T()), repo.T()) && OnlyAddsJobs()
      ensures Onward(old(S()), S()) && Spares(old(S()), S(), {})
      ensures Swept(old(daemon.log), daemon.log, old(repo.T()))
      ensures KeepsTime() && Armed(old(repo.T()), repo.T(), timers, faults != old(faults))
      ensures faults == old(faults) && calm && AllSteady(old(daemon.containers)) && |ops| + |rows| <= budget && Lists(ops, old(repo.ops)) ==>
        r.Ok? && Rested(rows, |rows|, old(now), S())
    {
      hide Inv, EnvStep, Kept, Swept, Onward, Spares, Dated, Ticks, Armed, Promised, Cleared, AllSteady, Rested, Lists;
      ghost var s0, t := S(), repo.T();
      InvParts(S(), Docker);
      r := ReconcileAll(ops, budget);
      if r.Err? {
        return;
      }
      ghost var s1, lost := S(), faults != old(faults);
      if Cleared(ops, |ops|, s1) && Lists(ops, t.ops) {
        AllCleared(ops, t, s1);
      }
      r := SweepAll(rows, if |ops| <= budget then budget - |ops| else 0, t, old(daemon.log), lost, old(now));
      OnwardTrans(s0, s1, S());
      SparesStep(s0, s1, S());
      KeptTrans(t, s1.db, repo.T());
      LostArmed(t, repo.T(), timers, lost || faults != old(faults), faults != old(faults));
    }

    /** What the sweep of one row keeps. */
    lemma StaysSwept(log: seq<Effect>, log1: seq<Effect>, t: Tables, s: State, row: Sandbox, at: int, was: Clock, lost: bool, lost': bool)
      requires Valid() && Inv(s, Docker) && RowsOk(t.rows, Docker) && row.id in t.rows && t.rows[row.id] == row
      requires Swept(log, log1, t) && Dated(t, s.db) && Armed(t, s.db, was, lost) && (lost ==> lost')
      requires OnlyOwner(s, S(), row.nativeId, false) && Relaxed(s.db, repo.T())
      requires OwnerOf(s.db, row.nativeId).None? ==> daemon.log == log1
      requires OwnerOf(s.db, row.nativeId).Some? ==>
        var own := OwnerOf(s.db, row.nativeId).value;
        StoppedFor(log1, daemon.log, own, at, now)
        && (daemon.log == log1 || (row.expiresAt.Some? && row.expiresAt.value <= at && own.expiresAt.Some?))
      requires timers == was || (OwnerOf(s.db, row.nativeId).Some? && timers == was - {row.nativeId} && IsStopped(OwnerOf(s.db, row.nativeId).value))
      ensures Swept(log, daemon.log, t) && Dated(t, repo.T()) && Armed(t, repo.T(), timers, lost') && Kept(s.db, repo.T())
      ensures Onward(s, S()) && Spares(s, S(), {})
    {
      var n := row.nativeId;
      hide Inv, Swept, Dated, Armed, OnlyOwner, Relaxed, OwnerOf, StoppedFor, IsStopped, Onward, Spares, Kept;
      OwnerOnward(s, S(), n, false);
      OwnerSpares(s, S(), n, false, Docker);
      OwnerKeeps(s, S(), n, false);
      LostArmed(t, s.db, was, lost, lost');
      StoppedIsUndated(s, n, was);
      SweptArmed(t, s.db, repo.T(), n, was, timers, lost', Docker);
      RelaxedDates(t, s.db, repo.T());
      SweptOne(log, log1, daemon.log, t, s, row, at, now, Docker);
    }

    /** The startup sweep over the rows that were read before, in the tables t. */
    method SweepAll(rows: seq<Sandbox>, budget: nat, ghost t: Tables, ghost log: seq<Effect>, ghost lost: bool, ghost since: int)
      returns (r: Result<()>)
      requires Valid() && RowsOk(t.rows, Docker) && since <= now
      requires forall i | 0 <= i < |rows| :: rows[i].id in t.rows && t.rows[rows[i].id] == rows[i] && rows[i].nativeId != NONE
      requires forall i, j | 0 <= i < |rows| && 0 <= j < |rows| && rows[i].nativeId == rows[j].nativeId :: rows[i] == rows[j]
      requires Dated(t, repo.T()) && Swept(log, daemon.log, t) && Armed(t, repo.T(), timers, lost)
      modifies this, repo, daemon
      ensures Valid() && old(now) <= now && Kept(old(repo.T()), repo.T()) && OnlyAddsJobs() && old(faults) <= faults
      ensures Onward(old(S()), S()) && Spares(old(S()), S(), {}) && Swept(log, daemon.log, t)
      ensures KeepsTime() && Armed(t, repo.T(), timers, lost || faults != old(faults))
      ensures faults == old(faults) && old(repo.ops) == map[] && |rows| <= budget ==> r.Ok? && Rested(rows, |rows|, since, S())
    {
      hide Inv, EnvStep, Kept, Swept, Onward, Spares, Dated, Relaxed, OnlyOwner, Ticks, Armed, IsStopped, OwnerOf, Rested, Quiet, Overdue, Idle;
      ghost var s0 := S();
      OnwardRefl(s0);
      SparesRefl(s0);
      KeptRefl(s0.db);
      NoneRested(rows, since, s0);
      for i := 0 to |rows|
        invariant Valid() && old(now) <= now && Kept(s0.db, repo.T()) && Dated(t, repo.T()) && OnlyAddsJobs()
        invariant Onward(s0, S()) && Spares(s0, S(), {})
        invariant old(faults) <= faults
        invariant faults == old(faults) && s0.db.ops == map[] && |rows| <= budget ==> Rested(rows, i, since, S())
        invariant KeepsTime() && Armed(t, repo.T(), timers, lost || faults != old(faults))
        invariant Swept(log, daemon.log, t)
      {
        if i >= budget {
          break;
        }
        ghost var s, log1, at, was, before := S(), daemon.log, now, timers, lost || faults != old(faults);
        NothingPends(rows, i, since, s);
        r := SweepOverdue(rows[i]);
        StaysSwept(log, log1, t, s, rows[i], at, was, before, lost || faults != old(faults));
        if Rested(rows, i, since, s) && faults == old(faults) && s0.db.ops == map[] {
          SweptIsQuiet(s, rows[i], at);
          RestedNext(rows, i, since, at, s, S());
        }
        OnwardTrans(s0, s, S());
        SparesStep(s0, s, S());
        KeptTrans(s0.db, s.db, repo.T());
        var late: bool := *;
        if r.Err? && r.error != Deferred && !(late && i + 1 >= budget) {
          return;
        }
      }
      return Ok(());
    }

    /** The sweep stops one sandbox that was overdue when the rows were read. Its deadline is the one that was read, or
        that of an intent that has been recovered since. */
    lemma SweptOne(log: seq<Effect>, log1: seq<Effect>, log2: seq<Effect>, t: Tables, s: State, row: Sandbox, at: int, until: int, rt: Runtime)
      requires Swept(log, log1, t) && Inv(s, rt) && Dated(t, s.db) && RowsOk(t.rows, rt)
      requires row.id in t.rows && t.rows[row.id] == row
      requires OwnerOf(s.db, row.nativeId).None? ==> log2 == log1
      requires OwnerOf(s.db, row.nativeId).Some? ==>
        var own := OwnerOf(s.db, row.nativeId).value;
        StoppedFor(log1, log2, own, at, until)
        && (log2 == log1 || (row.expiresAt.Some? && row.expiresAt.value <= at && own.expiresAt.Some?))
      ensures Swept(log, log2, t)
    {
      if OwnerOf(s.db, row.nativeId).Some? && log2 != log1 {
        OwnerToken(s, row.nativeId, rt);
        var own := OwnerOf(s.db, row.nativeId).value;
        assert t.rows[own.id].nativeId == row.nativeId && own.id == row.id;
        assert Dates(t, row, own.expiresAt);
        hide Inv, OwnerOf, StartPending, Dated;
        forall i | |log1| <= i < |log2| ensures WasOverdue(t, row.token, log2[i].at) {
          assert t.rows[row.id] == row;
        }
        hide WasOverdue;
      }
    }

    lemma SweptNothing(log: seq<Effect>, t: Tables)
      ensures Swept(log, log, t)
    {
    }

    /******* Shutdown and restart of the process *******/

    /** Nobody owns n, and no intent names it; or what is pending for it can be settled now. */
    ghost predicate Stoppable(s: State, n: Id) {
      if OwnerOf(s.db, n).None? then forall o <- s.db.ops :: s.db.ops[o].nativeId != n else calm && Recoverable(s, n)
    }

    method StopForShutdown(n: Id) returns (r: Result<()>)
      requires Valid()
      modifies this, repo, daemon
      ensures Valid() && old(now) <= now && OnlyOwner(old(S()), S(), n, false) && unchanged(this`attempts, this`process)
      ensures process.quit ==> jobs == old(jobs)
      ensures old(daemon.log) <= daemon.log
      ensures timers - {n} == old(timers) - {n}
      ensures r.Ok? ==> Quiet(S(), n) && (OwnerOf(repo.T(), n).None? || IsStopped(OwnerOf(repo.T(), n).value))
      ensures old(faults) <= faults
      ensures faults == old(faults) && (Stoppable(old(S()), n) || Resting(old(S()), {n})) ==> r.Ok?
      ensures r.Ok? && n !in old(timers) ==> n !in timers
    {
      hide Inv, EnvStep, OnlyOwner, Stopped, IntentOf, Consistent, NoTrespass, Idle, OwnerOf, Recoverable, OpsOk, Linked, RowsOk;
      assert Resting(S(), {n}) ==> OwnerOf(repo.T(), n).Some? && Idle(S(), n);
      hide Resting;
      ghost var s0 := S();
      r := ReconcileResource(n);
      if r.Err? {
        return;
      }
      ghost var s1 := S();
      var f := Pass();
      ghost var s2 := S();
      EnvIsOwner(s1, n, Docker);
      OwnerTrans(s0, s1, s2, n, false, false, Docker);
      if !f.Clean? {
        return Err(Store);
      }
      InvParts(s2, Docker);
      var row := repo.FindByNativeId(n);
      if row.None? {
        StoppedIsQuiet(S(), n);
        return Ok(());
      }
      OwnerToken(s2, n, Docker);
      IdleMeans(s1, n);
      EnvSame(s1, s2);
      r := StopLocked(n);
      OwnerTrans(s0, s2, S(), n, false, false, Docker);
      if Halted(r) {
        OwnerNow(S(), row.value.(expiresAt := None), n, Docker);
        StoppedIsQuiet(S(), n);
        return Ok(());
      }
    }

    /** The queue of background jobs is stopped: it is empty and takes no job any more. A shutdown begins with this,
        before it waits for the lifecycle lock. */
    method Quit()
      requires Valid()
      modifies this`jobs, this`process
      ensures Valid() && jobs == map[] && process == old(process).(quit := true)
    {
      jobs, process := map[], process.(quit := true);
    }

    /** Graceful shutdown: no job is left, no operation is admitted any more, and every sandbox that had a timer is
        stopped and has no deadline and nothing pending, or has no owner any more, or its stop failed. */
    method Shutdown() returns (failed: set<Id>)
      requires Valid()
      modifies this, repo, daemon
      ensures Valid() && old(now) <= now && jobs == map[] && process == old(process).(closing := true, quit := true) && attempts == old(attempts)
      ensures old(daemon.log) <= daemon.log && Onward(old(S()), S()) && Spares(old(S()), S(), {})
      ensures old(process.closing) ==> repo.T() == old(repo.T()) && daemon.containers == old(daemon.containers)
      ensures !old(process.closing) ==> failed <= old(timers.Keys) && forall n <- old(timers.Keys) :: n in failed || Quiet(S(), n)
      ensures !old(process.closing) ==> forall n <- old(timers.Keys) :: n in failed || OwnerOf(repo.T(), n).None?
                                                               || Stopped(daemon.containers, OwnerOf(repo.T(), n).value.token)
      ensures old(faults) <= faults
      ensures faults == old(faults) && Resting(old(S()), old(timers.Keys)) ==> failed == {}
      ensures !old(process.closing) ==> timers.Keys <= failed
    {
      hide Inv, EnvStep, OnlyOwner, IsStopped, OwnerOf, Onward, Quiet, Stopped, Spares;
      failed := {};
      OnwardRefl(S());
      SparesRefl(S());
      Quit();
      if process.closing {
        return;
      }
      process := process.(closing := true);
      failed := StopAll();
    }

    /** All these containers have owners with nothing pending. */
    ghost predicate Resting(s: State, all: set<Id>) {
      forall n <- all :: OwnerOf(s.db, n).Some? && Idle(s, n)
    }

    lemma RestingPart(s: State, all: set<Id>, rest: set<Id>, n: Id)
      requires n in all && rest <= all
      ensures Resting(s, all) ==> Resting(s, rest) && Resting(s, {n})
    {
      hide OwnerOf, Idle;
    }

    lemma RestingStays(s: State, s': State, rest: set<Id>, n: Id)
      requires Inv(s, Docker) && Inv(s', Docker) && OnlyOwner(s, s', n, false) && n !in rest
      ensures Resting(s, rest) ==> Resting(s', rest)
    {
      hide Inv, OnlyOwner, OwnerOf, Idle;
      forall m | Resting(s, rest) && m in rest ensures OwnerOf(s'.db, m).Some? && Idle(s', m) {
        RestStays(s, s', m, n, false, Docker);
      }
    }

    /** Every sandbox with a timer is stopped. */
    method StopAll() returns (failed: set<Id>)
      requires Valid() && process.quit && jobs == map[]
      modifies this, repo, daemon
      ensures Valid() && old(now) <= now && jobs == map[] && unchanged(this`process, this`attempts)
      ensures old(daemon.log) <= daemon.log && Onward(old(S()), S()) && Spares(old(S()), S(), {})
      ensures failed <= old(timers.Keys) && forall n <- old(timers.Keys) :: n in failed || Quiet(S(), n)
      ensures forall n <- old(timers.Keys) :: n in failed || OwnerOf(repo.T(), n).None?
                                              || Stopped(daemon.containers, OwnerOf(repo.T(), n).value.token)
      ensures old(faults) <= faults
      ensures faults == old(faults) && Resting(old(S()), old(timers.Keys)) ==> failed == {}
      ensures timers.Keys <= failed
    {
      hide Inv, EnvStep, OnlyOwner, IsStopped, OwnerOf, Onward, Quiet, Stopped, Spares, Resting, Idle;
      failed := {};
      OnwardRefl(S());
      SparesRefl(S());
      ghost var s0, all := S(), timers.Keys;
      var rest := timers.Keys;
      while rest != {}
        invariant Valid() && old(now) <= now && process.quit && jobs == map[] && rest <= all && failed <= all
        invariant unchanged(this`process, this`attempts)
        invariant old(daemon.log) <= daemon.log && Onward(s0, S()) && Spares(s0, S(), {})
        invariant old(faults) <= faults
        invariant timers.Keys <= rest + failed
        invariant faults == old(faults) && Resting(s0, all) ==> failed == {} && Resting(S(), rest)
        invariant forall n <- all :: n in rest || n in failed || Quiet(S(), n)
      {
        var n :| n in rest;
        ghost var before := rest;
        rest := rest - {n};
        CancelTimer(n);
        ghost var s := S();
        RestingPart(s, before, rest, n);
        ghost var was := timers;
        var stopped := StopForShutdown(n);
        FewerTimers(n, was, timers, rest + failed);
        OwnerOnward(s, S(), n, false);
        OnwardTrans(s0, s, S());
        OwnerSpares(s, S(), n, false, Docker);
        SparesStep(s0, s, S());
        if stopped.Err? {
          failed := failed + {n};
        }
        RestingStays(s, S(), rest, n);
        forall m | m in all && m != n && Quiet(s, m) ensures Quiet(S(), m) {
          QuietStays(s, S(), m, n, false, Docker);
        }
      }
      forall n | n in all && Quiet(S(), n) && OwnerOf(repo.T(), n).Some? ensures Stopped(daemon.containers, OwnerOf(repo.T(), n).value.token) {
        QuietIsStopped(S(), n, Docker);
      }
    }

    /** The process is started again, after a shutdown or a crash: only tables and containers survive. */
    method Reboot()
      requires Valid()
      modifies this`alive, this`process, this`timers, this`attempts, this`jobs
      ensures Valid() && S() == old(S()) && alive && process == Process(old(process.boots) + 1, false, false, false)
      ensures timers == map[] && attempts == map[] && jobs == map[]
    {
      hide Inv;
      alive, process := true, Process(process.boots + 1, false, false, false);
      timers, attempts, jobs := map[], map[], map[];
    }

    /******* Every run *******/

    /** What the process remembers agrees with the tables. */
    ghost predicate Books()
      reads this, repo, daemon
    {
      Recorded(M(), S())
    }

    /** Once the startup has registered everything, and until the backend is shut down, no sandbox runs without a timer. */
    ghost predicate OnTime()
      reads this, repo, daemon
    {
      process.ready && !process.closing ==> Ticks(S(), timers)
    }

    /** What an arrival is for, if no call fails on the way. */
    twostate predicate Answers(event: Event)
      reads this, repo, daemon
    {
      faults == old(faults) && !old(process.closing) ==>
        match event
        case CreateEvent(_, _, _, _, imageExists, _) =>
          calm && imageExists ==> exists k :: k in repo.rows && old(ledger.supply) <= repo.rows[k].token
        case AdoptEvent(row) => ProvenanceTx(old(repo.T()), row, true).Ok? ==> Provided(row)
        case MarkEvent(row) => ProvenanceTx(old(repo.T()), row, false).Ok? ==> Provided(row)
        case FailedEvent(n) => n in attempts && !process.quit ==> attempts[n].id in jobs
        case DiscardEvent(n) => Admits(old(repo.T()), n, Kind.Delete) ==> IsGone(OwnerOf(old(repo.T()), n).value)
        case RemoveEvent(n) => Admits(old(repo.T()), n, Kind.Delete) ==> IsGone(OwnerOf(old(repo.T()), n).value)
        case StartEvent(n) =>
          calm && Ready(old(S()), n) && !old(daemon.containers)[n].running ==>
            n in timers && IsStarted(OwnerOf(old(repo.T()), n).value, timers[n].expiresAt)
        case RestartEvent(n) =>
          calm && Ready(old(S()), n) ==> n in timers && IsStarted(OwnerOf(old(repo.T()), n).value, timers[n].expiresAt)
        case StopEvent(n) => OwnerOf(old(repo.T()), n).Some? && Idle(old(S()), n) ==> IsStopped(OwnerOf(old(repo.T()), n).value)
        case RenewEvent(n, timeout) =>
          calm && n in old(daemon.containers) && OwnerOf(old(repo.T()), n).Some? && Idle(old(S()), n) ==>
            n in timers && old(now) + timeout <= timers[n].expiresAt <= now + timeout
        case ExpireEvent(n, entry) =>
          old(n in timers && timers[n] == entry && entry.fireAt <= now && OwnerOf(repo.T(), n).Some? && Idle(S(), n)) ==>
            Served(OwnerOf(old(repo.T()), n).value, entry, old(now))
        case JobEvent(id) =>
          calm && id in old(jobs) && id in old(repo.ops) && old(jobs)[id] == old(repo.ops)[id]
          && Steady(old(daemon.containers), old(repo.ops)[id].token)
          ==> id !in repo.ops
        case RecoverEvent(_) => process.ready
        case QuitEvent => process.quit && jobs == map[]
        case ShutdownEvent => process.closing
        case RebootEvent => process.boots == old(process.boots) + 1
        case PassEvent => true
    }

    ghost predicate Provided(row: Sandbox)
      reads repo
    {
      row.id in repo.rows && repo.rows[row.id].provenance == row.provenance
    }

    /** Whatever happens, in whatever order, wherever the process dies and is started again: the invariant holds
        after it. What was stopped or removed carried the label of the intent that acted. The row of an adopted attempt
        stays, unless its deletion was already pending or is what is asked for here; and no background job is lost. */
    method Handle(event: Event)
      requires Valid() && Books()
      modifies this, repo, daemon
      ensures Valid() && Books() && old(now) <= now && old(daemon.log) <= daemon.log && Onward(old(S()), S())
      ensures Spares(old(S()), S(), Removals([event])) && Keeps(old(M()), old(S()), M(), S())
      ensures old(OnTime()) ==> OnTime()
      ensures Answers(event)
    {
      hide Inv, Onward, Spares, Keeps, Recorded, Ticks, Provided, Served, IsStarted, IsStopped, IsGone, Ready, Steady, Admits, Idle;
      hide ProvenanceTx, OwnerOf;
      RemovalsOne(event);
      match event
      case CreateEvent(prechosen, timeout, ports, provenance, imageExists, awaitAdoption) =>
        HandleCreate(prechosen, timeout, ports, provenance, imageExists, awaitAdoption);
      case AdoptEvent(row) => HandleAdopt(row);
      case MarkEvent(row) => HandleMark(row);
      case DiscardEvent(n) => HandleDiscard(n);
      case StartEvent(n) => HandleOther(event, n);
      case StopEvent(n) => HandleOther(event, n);
      case RestartEvent(n) => HandleOther(event, n);
      case RemoveEvent(n) => HandleOther(event, n);
      case RenewEvent(n, timeout) => HandleOther(event, n);
      case ExpireEvent(n, entry) => HandleOther(event, n);
      case JobEvent(id) => HandleJob(id);
      case _ => HandleProcess(event);
    }

    method HandleMark(row: Sandbox)
      requires Valid() && Books()
      modifies this, repo, daemon
      ensures Valid() && Books() && old(now) <= now && daemon.log == old(daemon.log) && Onward(old(S()), S())
      ensures Spares(old(S()), S(), {}) && Keeps(old(M()), old(S()), M(), S())
      ensures KeepsTime() && unchanged(this`process)
      ensures faults == old(faults) && ProvenanceTx(old(repo.T()), row, false).Ok? ==> Provided(row)
    {
      hide Inv, Onward, Spares, Keeps, Recorded, Ticks, ProvenanceTx;
      var marked := Mark(row);
      Remembered(old(M()), old(S()), M(), S());
    }

    method HandleRecover(budget: nat)
      requires Valid() && Books()
      modifies this, repo, daemon
      ensures Valid() && Books() && old(now) <= now && old(daemon.log) <= daemon.log && Onward(old(S()), S())
      ensures Spares(old(S()), S(), {}) && Keeps(old(M()), old(S()), M(), S())
      ensures old(OnTime()) ==> OnTime()
      ensures faults == old(faults) && !old(process.closing) ==> process.ready
    {
      hide Inv, Onward, Spares, Keeps, Recorded, Ticks, Armed, Quiet, AllSteady, Overdue, Kept;
      ghost var registered;
      var recovered;
      recovered, registered := Recover(budget);
      Remembered(old(M()), old(S()), M(), S());
    }

    /** What happens to the process, and the passing of time. */
    method HandleProcess(event: Event)
      requires Valid() && Books()
      requires event.FailedEvent? || event.RecoverEvent? || event.QuitEvent? || event.ShutdownEvent? || event.RebootEvent? || event.PassEvent?
      modifies this, repo, daemon
      ensures Valid() && Books() && old(now) <= now && old(daemon.log) <= daemon.log && Onward(old(S()), S())
      ensures Spares(old(S()), S(), {}) && Keeps(old(M()), old(S()), M(), S())
      ensures old(OnTime()) ==> OnTime()
      ensures event.FailedEvent? && event.native in attempts && !process.quit ==> attempts[event.native].id in jobs
      ensures event.RecoverEvent? && faults == old(faults) && !old(process.closing) ==> process.ready
      ensures event.QuitEvent? ==> process.quit && jobs == map[]
      ensures event.ShutdownEvent? ==> process.closing
      ensures event.RebootEvent? ==> process.boots == old(process.boots) + 1
    {
      hide Inv, Onward, Spares, Keeps, Recorded, Ticks, Swept, Armed, Quiet, Resting, OwnerOf, Stopped, EnvStep, NoTrespass, AllSteady, Overdue, Kept;
      OnwardRefl(S());
      SparesRefl(S());
      match event {
        case FailedEvent(n) =>
          CreationFailed(n);
          Remembered(old(M()), old(S()), M(), S());
        case RecoverEvent(budget) =>
          HandleRecover(budget);
        case QuitEvent =>
          Quit();
          Remembered(old(M()), old(S()), M(), S());
        case ShutdownEvent =>
          var failed := Shutdown();
          Remembered(old(M()), old(S()), M(), S());
        case RebootEvent =>
          Reboot();
          NewProcess(old(M()), old(S()), M(), S());
        case PassEvent =>
          var fault := Pass();
          EnvOnward(old(S()), S());
          EnvTicking(old(S()), S(), timers, Docker);
          Remembered(old(M()), old(S()), M(), S());
      }
    }

    lemma CreatedTicks(created: Option<Id>, token: Id, deadline: int, ports: Ports, awaitAdoption: bool)
      requires Valid() && (if created.Some? then IsCreated(created.value, token, deadline, ports, awaitAdoption) else Shut(token))
      ensures forall k <- repo.rows :: repo.rows[k].token == token ==> TicksFor(S(), repo.rows[k], timers)
    {
      if created.Some? {
        OwnerTracked(S(), created.value, token, Docker);
      }
    }

    /** A public identity that was just drawn is free. */
    lemma NewIsAvailable(s: State, public: Id, rt: Runtime)
      requires Inv(s, rt) && public == s.ledger.supply
      ensures Available(s.db, public) && Available(s.db, NONE)
    {
      InvParts(s, rt);
      hide Inv;
    }

    method HandleCreate(prechosen: bool, timeout: int, ports: Ports, provenance: Provenance, imageExists: bool, awaitAdoption: bool)
      requires Valid() && Books()
      modifies this, repo, daemon
      ensures Valid() && Books() && old(now) <= now && old(daemon.log) <= daemon.log && Onward(old(S()), S())
      ensures Spares(old(S()), S(), {}) && Keeps(old(M()), old(S()), M(), S())
      ensures KeepsTime()
      ensures unchanged(this`process)
      ensures calm && faults == old(faults) && !old(process.closing) && imageExists ==>
        exists k :: k in repo.rows && old(ledger.supply) <= repo.rows[k].token
    {
      hide Inv, Available, EnvStep, OnlyAttempt, Onward, Spares, Keeps, Recorded, Lasting, Shut, Older, Ticks;
      ghost var s := S();
      EnvRefl(s, Docker);
      NewIsNot0(s, Docker);
      NewIsAvailable(s, s.ledger.supply, Docker);
      var public := NONE;
      if prechosen {
        public := NewId();
      }
      ghost var token;
      var created;
      created, token := Create(public, timeout, ports, provenance, imageExists, awaitAdoption, s);
      NewOnward(s, S(), token, Docker);
      CreatedTicks(if created.Ok? then Some(created.value.0) else None, token, if created.Ok? then timers[created.value.0].expiresAt else 0,
                   if created.Ok? then created.value.1 else map[], awaitAdoption);
      if created.Ok? {
        assert OwnerOf(repo.T(), created.value.0).value.id in repo.rows;
      }
      NewTicks(s, S(), token, old(timers), timers, Docker);
      if created.Ok? && awaitAdoption {
        OneRemembered(old(M()), s, M(), S(), created.value.0, token, Docker);
      } else {
        Remembered(old(M()), s, M(), S());
      }
    }

    method HandleAdopt(row: Sandbox)
      requires Valid() && Books()
      modifies this, repo, daemon
      ensures Valid() && Books() && old(now) <= now && daemon.log == old(daemon.log) && Onward(old(S()), S())
      ensures Spares(old(S()), S(), {}) && Keeps(old(M()), old(S()), M(), S())
      ensures KeepsTime()
      ensures unchanged(this`process)
      ensures faults == old(faults) && !old(process.closing) && ProvenanceTx(old(repo.T()), row, true).Ok? ==> Provided(row)
    {
      hide Inv, EnvStep, OnlyAttempt, Onward, Spares, Keeps, Recorded, Ticks;
      var adopted := AdoptCreation(row);
      if adopted.Ok? {
        AdoptedIsRecalled(old(M()), old(S()), M(), S(), row);
      } else {
        Remembered(old(M()), old(S()), M(), S());
      }
    }

    method HandleDiscard(n: Id)
      requires Valid() && Books()
      modifies this, repo, daemon
      ensures Valid() && Books() && old(now) <= now && old(daemon.log) <= daemon.log && Onward(old(S()), S())
      ensures Spares(old(S()), S(), {n}) && Keeps(old(M()), old(S()), M(), S())
      ensures KeepsTime()
      ensures unchanged(this`process)
      ensures faults == old(faults) && !old(process.closing) && Admits(old(repo.T()), n, Kind.Delete) ==> IsGone(OwnerOf(old(repo.T()), n).value)
    {
      hide Inv, OnlyOwner, Onward, Spares, Keeps, Recorded, OwnerOf, Ticks;
      var discarded := DiscardCreated(n);
      OwnerOnward(old(S()), S(), n, true);
      OwnerSpares(old(S()), S(), n, true, Docker);
      if discarded.Ok? {
        GoneIsRecalled(old(M()), old(S()), M(), S(), n, Docker);
      } else {
        Remembered(old(M()), old(S()), M(), S());
      }
    }

    method HandleOther(event: Event, n: Id)
      requires Valid() && Books()
      requires event.StartEvent? || event.StopEvent? || event.RestartEvent? || event.RemoveEvent? || event.RenewEvent? || event.ExpireEvent?
      requires n == event.native
      modifies this, repo, daemon
      ensures Valid() && Books() && old(now) <= now && old(daemon.log) <= daemon.log && Onward(old(S()), S())
      ensures Spares(old(S()), S(), if event.RemoveEvent? then {n} else {}) && Keeps(old(M()), old(S()), M(), S())
      ensures KeepsTime()
      ensures unchanged(this`process)
      ensures Answers(event)
    {
      hide Inv, EnvStep, OnlyOwner, Onward, Spares, Keeps, Recorded, IsStopped, IsStarted, IsGone, OwnerOf, IntentOf, RowOf, Stopped, Lingers, Admits, Ticks;
      ghost var s := S();
      EnvIsOwner(s, n, Docker);
      match event {
        case StartEvent(n) => var started := Start(n);
        case StopEvent(n) => var stopped := Stop(n);
        case RestartEvent(n) => var restarted := Restart(n);
        case RemoveEvent(n) => var removed := Remove(n);
        case RenewEvent(n, timeout) => var renewed := RenewExpiration(n, timeout);
        case ExpireEvent(n, entry) =>
          if entry.fireAt <= now {
            ExpireLocked(n, entry);
          }
      }
      OwnerOnward(s, S(), n, event.RemoveEvent?);
      OwnerSpares(s, S(), n, event.RemoveEvent?, Docker);
      Remembered(old(M()), s, M(), S());
    }

    method HandleJob(id: Id)
      requires Valid() && Books()
      modifies this, repo, daemon
      ensures Valid() && Books() && old(now) <= now && old(daemon.log) <= daemon.log && Onward(old(S()), S())
      ensures Spares(old(S()), S(), {}) && Keeps(old(M()), old(S()), M(), S())
      ensures KeepsTime()
      ensures unchanged(this`process)
      ensures faults == old(faults) && !old(process.closing) ==> Answers(JobEvent(id))
    {
      hide Inv, EnvStep, OnlyAttempt, Kept, Onward, Spares, Keeps, Recorded, Ticks;
      OnwardRefl(S());
      SparesRefl(S());
      if id !in jobs {
        Remembered(old(M()), old(S()), M(), S());
        return;
      }
      var done := RunJob(id);
      if attempts == old(attempts) {
        JobIsDone(old(M()), old(S()), M(), S(), id);
      } else {
        UndoIsRecalled(old(M()), old(S()), M(), S(), id, Docker);
      }
    }

    /** The same over every run. */
    method Run(events: seq<Event>)
      requires Valid() && Books()
      modifies this, repo, daemon
      ensures Valid() && Books() && old(now) <= now && old(daemon.log) <= daemon.log && Onward(old(S()), S())
      ensures Spares(old(S()), S(), Removals(events)) && Keeps(old(M()), old(S()), M(), S())
      ensures events == [] ==> unchanged(this, repo, daemon)
      ensures old(OnTime()) ==> OnTime()
    {
      hide Inv, Onward, Spares, Keeps, Recorded, Removals, Ticks;
      OnwardRefl(S());
      SparesRefl(S());
      Remembered(M(), S(), M(), S());
      assert events[..0] == [];
      RemovalsNone();
      ghost var s0, m0 := S(), M();
      for i := 0 to |events|
        invariant Onward(s0, S()) && Spares(s0, S(), Removals(events[..i])) && Keeps(m0, s0, M(), S())
        invariant Valid() && Books() && old(now) <= now && old(daemon.log) <= daemon.log
        invariant i == 0 ==> unchanged(this, repo, daemon)
        invariant old(OnTime()) ==> OnTime()
      {
        ghost var s, m := S(), M();
        Handle(events[i]);
        KeepsTrans(m0, s0, m, s, M(), S(), Docker);
        OnwardTrans(s0, s, S());
        SparesTrans(s0, s, S(), Removals(events[..i]), Removals([events[i]]));
        RemovalsNext(events, i);
      }
      assert events[..|events|] == events;
    }
  }
}
