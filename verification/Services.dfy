/** internal/service/service.go, Create, over internal/runtimeio/provision.go: create, adopt, read back, or roll
    back. Between any two of these steps other callers, timers, jobs, crashes and restarts may run. */
module Services {
  import opened Prelude
  import opened Records
  import opened Repositories
  import opened Intents
  import opened Protocol
  import opened Attempts
  import opened Creations
  import opened Lifecycle
  import opened DockerClient

  /******* A created sandbox, from its creation on *******/

  /** The row of a sandbox that was just created, and what the process remembers of it. */
  ghost predicate Made(m: Memory, s: State, token: Id, n: Id, public: Id) {
    && public in s.db.rows && s.db.rows[public].token == token && s.db.rows[public].nativeId == n
    && token !in s.ledger.abandoned && token in s.ledger.issued && token in s.ledger.awaiting
    && n < s.ledger.supply && public < s.ledger.supply && token < s.ledger.supply
    && n in m.attempts && m.attempts[n].token == token && m.attempts[n].id == token
    && (forall k <- s.db.rows :: s.db.rows[k].nativeId == n ==> k == public)
  }

  lemma CreatedRow(m: Memory, s: State, token: Id, n: Id, public: Id, rt: Runtime)
    requires Inv(s, rt) && OwnerOf(s.db, n).Some? && token !in s.ledger.abandoned
    requires token in s.ledger.awaiting || s.ledger.supply <= token
    requires n in m.attempts && m.attempts[n].token == token && m.attempts[n].id == token
    requires var row := OwnerOf(s.db, n).value; row.token == token && row.id == public && row.nativeId == n
    ensures Made(m, s, token, n, public)
  {
    OwnerToken(s, n, rt);
    InvParts(s, rt);
  }

  /** The sandbox was made in m0 and s0, and any run has led to m and s since. */
  ghost predicate Since(m0: Memory, s0: State, token: Id, n: Id, public: Id, m: Memory, s: State) {
    && Inv(s0, Docker) && Recorded(m0, s0) && Made(m0, s0, token, n, public)
    && Onward(s0, s) && Keeps(m0, s0, m, s) && Inv(s, Docker)
  }

  lemma SinceStarts(m: Memory, s: State, token: Id, n: Id, public: Id)
    requires Inv(s, Docker) && Recorded(m, s) && Made(m, s, token, n, public)
    ensures Since(m, s, token, n, public, m, s)
  {
    hide Inv, Recorded, Made, Onward, Keeps;
    OnwardRefl(s);
    Remembered(m, s, m, s);
  }

  lemma SinceGoesOn(m0: Memory, s0: State, token: Id, n: Id, public: Id, m: Memory, s: State, m': Memory, s': State)
    requires Since(m0, s0, token, n, public, m, s) && Onward(s, s') && Keeps(m, s, m', s') && Inv(s', Docker)
    ensures Since(m0, s0, token, n, public, m', s')
  {
    hide Inv, Recorded, Made, Onward, Keeps;
    KeepsTrans(m0, s0, m, s, m', s', Docker);
    OnwardTrans(s0, s, s');
  }

  /** No other sandbox ever gets its identities. */
  lemma SinceMeans(m0: Memory, s0: State, token: Id, n: Id, public: Id, m: Memory, s: State)
    requires Since(m0, s0, token, n, public, m, s)
    ensures token !in s.ledger.abandoned && token in s.ledger.issued && token in s.ledger.awaiting
    ensures forall k <- s.db.rows :: k == public || s.db.rows[k].nativeId == n || s.db.rows[k].token == token ==>
      k == public && s.db.rows[k].nativeId == n && s.db.rows[k].token == token
  {
    assert RowsOk(s0.db.rows, Docker) by { InvParts(s0, Docker); }
    hide Inv, Recorded, Keeps, Fate;
  }

  /** It is gone, or adopted, or still remembered; or the process was started again. */
  lemma StillRemembered(m0: Memory, s0: State, token: Id, n: Id, public: Id, m: Memory, s: State)
    requires Since(m0, s0, token, n, public, m, s) && m.process.boots == m0.process.boots
    ensures (n in m.attempts && m.attempts[n] == m0.attempts[n]) || token in s.ledger.adopted || Gone(s.db, token)
  {
    hide Inv, Recorded;
    assert Recalled(m0.attempts[n], n, m, s);
    assert HasRow(s0.db, token);
    assert Fate(s0.db, s.db, token);
  }

  /** The background recovery has the attempt in hand, unless it is adopted or gone: its intent, which has the number of
      the token, has a job. A restart of the process forgets jobs until the next startup, and a queue that was stopped
      has none. */
  ghost predicate Watched(m: Memory, s: State, token: Id, boots: nat) {
    || token in s.ledger.adopted || Gone(s.db, token)
    || m.process.boots != boots || m.process.quit
    || (token in s.db.ops && s.db.ops[token].token == token && token in m.jobs)
  }

  /** It stays watched, whatever happens. */
  lemma WatchedStays(m: Memory, s: State, m': Memory, s': State, token: Id, boots: nat)
    requires Watched(m, s, token, boots) && boots <= m.process.boots && token in s.ledger.issued && token in s.ledger.awaiting
    requires Onward(s, s') && Keeps(m, s, m', s') && Inv(s', Docker)
    ensures Watched(m', s', token, boots)
  {
    OneOfThree(s', token, Docker);
    assert Fate(s.db, s'.db, token);
    hide Inv, Lasting, Recalled, HasRow, Owned, Undone;
  }

  /** A job was registered for what is remembered. */
  lemma QueuedIsWatched(m0: Memory, s0: State, token: Id, n: Id, public: Id, m: Memory, s: State)
    requires Since(m0, s0, token, n, public, m, s)
    requires n in m.attempts && !m.process.quit ==> m.attempts[n].id in m.jobs
    ensures Watched(m, s, token, m0.process.boots)
  {
    SinceMeans(m0, s0, token, n, public, m, s);
    OneOfThree(s, token, Docker);
    if m.process.boots == m0.process.boots {
      StillRemembered(m0, s0, token, n, public, m, s);
    }
    assert m0.attempts[n].id == token;
    hide Since, Inv, Owned, Undone, HasRow, HasIntent;
  }

  /** What others do meanwhile: after the creation, after the adoption, and after a rollback that failed. */
  datatype Others = Others(created: seq<Event>, adopted: seq<Event>, discarded: seq<Event>)

  /** The row is there under both identities, and nothing but a creation is pending for it. */
  ghost predicate MayAdopt(t: Tables, public: Id, n: Id) {
    && public in t.rows && t.rows[public].nativeId == n
    && forall o <- t.ops :: t.ops[o].publicId == public ==> t.ops[o].kind.Create?
  }

  lemma AdoptSucceeds(t: Tables, public: Id, n: Id, provenance: Provenance, rt: Runtime)
    requires RowsOk(t.rows, rt) && MayAdopt(t, public, n)
    ensures ProvenanceTx(t, t.rows[public].(provenance := provenance), true).Ok?
  {
  }

  class Service {
    const client: Client

    constructor (client: Client)
      ensures this.client == client
    {
      this.client := client;
    }

    /** What the adoption of the sandbox public, created as container n, achieves. */
    ghost predicate IsAdopted(s: State, public: Id, n: Id)
      reads client, client.repo
    {
      var t := s.db;
      && public in t.rows && t.rows[public].nativeId == n
      && public in client.repo.rows && client.repo.rows[public].token == t.rows[public].token
      && (t.rows[public].token !in s.ledger.abandoned ==>
            IntentOf(client.repo.T(), t.rows[public].token).None? && t.rows[public].token in client.ledger.adopted)
    }

    /** Adopt the sandbox that was made in m0 and s0. Success means adopted; after a failure the attempt is watched. */
    method Adopt(public: Id, n: Id, provenance: Provenance, sameImage: bool, ghost token: Id, ghost m0: Memory, ghost s0: State)
      returns (r: Result<()>)
      requires client.Valid() && client.Books() && Since(m0, s0, token, n, public, client.M(), client.S())
      modifies client, client.repo, client.daemon
      ensures client.Valid() && client.Books() && Since(m0, s0, token, n, public, client.M(), client.S())
      ensures Onward(old(client.S()), client.S())
      ensures r.Ok? ==> IsAdopted(old(client.S()), public, n) && sameImage && client.repo.rows[public].provenance == provenance
      ensures r.Err? ==> Watched(client.M(), client.S(), token, m0.process.boots)
      ensures client.process == old(client.process) && old(client.faults) <= client.faults
      ensures client.Lightly(old(client.repo.T()), client.repo.T())
      ensures client.faults == old(client.faults) && !client.process.closing && MayAdopt(old(client.repo.T()), public, n) ==>
        (r.Ok? <==> sameImage)
    {
      hide Inv, Onward, Keeps, Recorded, Since, Watched, OwnerOf, IntentOf, Consistent;
      ghost var m1, s1 := client.M(), client.S();
      r := TryAdopt(public, n, provenance, sameImage);
      SinceGoesOn(m0, s0, token, n, public, m1, s1, client.M(), client.S());
      if r.Err? {
        ghost var m2, s2 := client.M(), client.S();
        client.CreationFailed(n);
        OnwardRefl(s2);
        Remembered(m2, s2, client.M(), s2);
        SinceGoesOn(m0, s0, token, n, public, m2, s2, client.M(), s2);
        QueuedIsWatched(m0, s0, token, n, public, client.M(), s2);
      }
    }

    method TryAdopt(public: Id, n: Id, provenance: Provenance, sameImage: bool) returns (r: Result<()>)
      requires client.Valid() && client.Books()
      modifies client, client.repo, client.daemon
      ensures client.Valid() && client.Books() && Onward(old(client.S()), client.S())
      ensures Keeps(old(client.M()), old(client.S()), client.M(), client.S())
      ensures r.Ok? ==> IsAdopted(old(client.S()), public, n) && sameImage && client.repo.rows[public].provenance == provenance
      ensures client.process == old(client.process) && old(client.faults) <= client.faults
      ensures client.Lightly(old(client.repo.T()), client.repo.T())
      ensures client.faults == old(client.faults) && !client.process.closing && sameImage && MayAdopt(old(client.repo.T()), public, n) ==> r.Ok?
    {
      hide Inv, Onward, Keeps, Recorded, OnlyAttempt, EnvStep, IntentOf, Consistent, Spares, ProvenanceTx;
      ghost var m0, s0 := client.M(), client.S();
      var f := client.Pass();
      ghost var s1 := client.S();
      EnvOnward(s0, s1);
      EnvSame(s0, s1);
      EnvLedger(s0, s1);
      Remembered(m0, s0, client.M(), s1);
      if !f.Clean? {
        return Err(Store);
      }
      if public !in client.repo.rows {
        return Err(NotFound);
      }
      var row := client.repo.rows[public];
      if row.nativeId != n {
        return Err(Mismatch);
      }
      if !sameImage {
        return Err(Mismatch);
      }
      RowIds(s1, public, Docker);
      if MayAdopt(s1.db, public, n) {
        AdoptSucceeds(s1.db, public, n, provenance, Docker) by { InvParts(s1, Docker); }
      }
      r := client.AdoptCreation(row.(provenance := provenance));
      OnwardTrans(s0, s1, client.S());
      if r.Ok? {
        AdoptedIsRecalled(m0, s0, client.M(), client.S(), row);
      } else {
        Remembered(m0, s0, client.M(), client.S());
      }
    }

    lemma EnvLedger(s: State, s': State)
      requires EnvStep(s, s')
      ensures s'.ledger.abandoned == s.ledger.abandoned
    {
    }

    lemma RowIds(s: State, k: Id, rt: Runtime)
      requires Inv(s, rt) && k in s.db.rows
      ensures s.db.rows[k].id == k
    {
    }

    /** The row is marked with the reason why its rollback failed; no intent changes, and no row but in its provenance. */
    method Recover(public: Id, n: Id, provenance: Provenance) returns (r: Result<()>)
      requires client.Valid()
      modifies client`now, client`alive, client`ledger, client`faults, client.daemon`containers, client.repo
      ensures client.Valid() && Onward(old(client.S()), client.S()) && client.repo.ops == old(client.repo.ops) && old(client.faults) <= client.faults
      ensures client.repo.rows.Keys == old(client.repo.rows.Keys)
      ensures forall k <- client.repo.rows ::
        client.repo.rows[k] == old(client.repo.rows)[k].(provenance := client.repo.rows[k].provenance)
      ensures r.Ok? ==> public in client.repo.rows && client.repo.rows[public].nativeId == n && client.repo.rows[public].provenance == provenance
      ensures client.faults == old(client.faults) && public in old(client.repo.rows) && old(client.repo.rows)[public].nativeId == n ==> r.Ok?
    {
      hide Inv, Onward, EnvStep, Spares;
      ghost var s0 := client.S();
      var f := client.Pass();
      ghost var s1 := client.S();
      EnvOnward(s0, s1);
      EnvSame(s0, s1);
      if !f.Clean? {
        return Err(Store);
      }
      if public !in client.repo.rows {
        return Err(NotFound);
      }
      RowIds(s1, public, Docker);
      r := client.Mark(client.repo.rows[public].(nativeId := n, provenance := provenance));
      OnwardTrans(s0, s1, client.S());
    }

    /** What a failed creation leaves behind: nothing; or an intent that is watched, or for which nothing native exists;
        or, only if it had been adopted before, the sandbox with nothing pending. */
    ghost predicate Failed(token: Id, boots: nat)
      reads client, client.repo, client.daemon
    {
      || Undone(client.S(), token)
      || (HasIntent(client.repo.T(), token)
          && (Watched(client.M(), client.S(), token, boots)
              || (token in client.repo.ops && client.repo.ops[token].nativeId == NONE && Absent(client.daemon.containers, token))))
      || (Lingers(client.repo.T(), token) && Owned(client.S(), token) && token in client.ledger.adopted)
    }

    /** The sandbox has its row and its container, and nothing of its creation is pending. */
    ghost predicate Succeeded(public: Id, n: Id, token: Id)
      reads client, client.repo
    {
      && token in client.ledger.adopted
      && public in client.repo.rows && client.repo.rows[public].token == token && client.repo.rows[public].nativeId == n
      && forall o <- client.repo.ops :: client.repo.ops[o].token == token ==> !client.repo.ops[o].kind.Create?
    }

    /** Success means adopted: the creation is final, and the row that was read back is the row of this very sandbox,
        whatever others did meanwhile. */
    method Create(timeout: int, ports: Ports, provenance: Provenance, imageExists: bool, sameImage: bool, others: Others)
      returns (r: Result<Id>, ghost token: Id, ghost n: Option<Id>)
      requires client.Valid() && client.Books()
      modifies client, client.repo, client.daemon
      ensures client.Valid() && client.Books() && Onward(old(client.S()), client.S())
      ensures r.Ok? ==> n.Some? && Succeeded(r.value, n.value, token)
      ensures r.Err? ==> Failed(token, old(client.process.boots))
      ensures r.Ok? ==> imageExists && sameImage && (others.adopted == [] ==> client.repo.rows[r.value].provenance == provenance)
      ensures client.calm && client.faults == old(client.faults) && Alone(old(client.process), others) ==>
        if imageExists && sameImage then r.Ok? else r.Err? && Undone(client.S(), token)
    {
      hide Inv, Onward, Keeps, Recorded, Since, Watched, OnlyAttempt, EnvStep, OwnerOf, IntentOf, Consistent, Undone, Owned, Lasting;
      hide Lingers, HasIntent, Absent, Spares, Made;
      ghost var m0, s0 := client.M(), client.S();
      EnvRefl(s0, Docker);
      var public := client.NewId();
      client.NewIsAvailable(s0, public, Docker);
      var created;
      created, token := client.Create(public, timeout, ports, provenance, imageExists, true, s0);
      n := None;
      ghost var m1, s1 := client.M(), client.S();
      NewOnward(s0, s1, token, Docker);
      if created.Err? {
        Remembered(m0, s0, m1, s1);
        NotMade(m1, s1, token, m0.process.boots);
        if client.faults == old(client.faults) && client.calm && Alone(old(client.process), others) {
          assert !imageExists;
          NeverIssued(s1, token);
        }
        return Err(created.error), token, None;
      }
      n := Some(created.value.0);
      OneRemembered(m0, s0, m1, s1, created.value.0, token, Docker);
      CreatedRow(m1, s1, token, created.value.0, public, Docker);
      SinceStarts(m1, s1, token, created.value.0, public);
      CreatedMayBeAdopted(s1, token, created.value.0, public, Docker);
      r := Finish(public, created.value.0, provenance, sameImage, others, token, m1, s1);
      OnwardTrans(s0, s1, client.S());
    }

    /** A creation that failed before there was a sandbox. */
    lemma NotMade(m: Memory, s: State, token: Id, boots: nat)
      requires Inv(s, Docker) && (token in s.ledger.awaiting || s.ledger.supply <= token)
      requires token in s.db.ops && !m.process.quit ==>
        token in m.jobs || (s.db.ops[token].nativeId == NONE && Absent(s.native, token))
      ensures || Undone(s, token)
              || (HasIntent(s.db, token) && (Watched(m, s, token, boots)
                    || (token in s.db.ops && s.db.ops[token].nativeId == NONE && Absent(s.native, token))))
              || (Lingers(s.db, token) && Owned(s, token) && token in s.ledger.adopted)
    {
      if s.ledger.supply <= token {
        NeverIssued(s, token);
      } else {
        OneOfThree(s, token, Docker);
        OwnedLingers(s, token);
        hide Inv, Undone, Owned, HasRow, Absent, Gone;
      }
    }

    lemma NeverIssued(s: State, token: Id)
      requires Inv(s, Docker) && s.ledger.supply <= token
      ensures Undone(s, token)
    {
      InvParts(s, Docker);
      hide Inv;
    }

    /** The only intent of a created sandbox is its creation, so that it can be adopted as well as undone. */
    lemma CreatedMayBeAdopted(s: State, token: Id, n: Id, public: Id, rt: Runtime)
      requires Inv(s, rt) && public in s.db.rows && s.db.rows[public].token == token && s.db.rows[public].nativeId == n
      requires IntentOf(s.db, token).Some? && Repositories.Adopted(IntentOf(s.db, token).value, s.db.rows[public])
      ensures MayAdopt(s.db, public, n) && Admitted(s.db, n, token)
    {
      InvParts(s, rt);
      hide Inv;
      assert Owns(s.db.rows[public], n);
      OwnerIs(s.db, rt, public, n);
      forall o | o in s.db.ops && s.db.ops[o].publicId == public ensures s.db.ops[o].token == token && s.db.ops[o].kind.Create? {
        assert Touches(s.db.ops[o], s.db.rows[public]);
        IntentIs(s.db, rt, o);
      }
    }

    /** An adoption, whether it succeeds or fails, does not stand in the way of a rollback. */
    lemma LightlyAdmitted(t: Tables, t': Tables, n: Id, token: Id, rt: Runtime)
      requires RowsOk(t.rows, rt) && OpsOk(t.ops, rt) && RowsOk(t'.rows, rt) && client.Lightly(t, t') && Admitted(t, n, token)
      ensures Admitted(t', n, token)
    {
      var k :| k in t.rows && Owns(t.rows[k], n);
      OwnerIs(t, rt, k, n);
      assert k in t'.rows && Owns(t'.rows[k], n);
      OwnerIs(t', rt, k, n);
      if o :| o in t'.ops && t'.ops[o].token == token {
        IntentIs(t, rt, o);
        assert Undoing(t.ops[o].kind);
        forall q | q in t'.ops && t'.ops[q].token == token ensures Undoing(t'.ops[q].kind) {
          IntentIs(t, rt, q);
        }
      }
    }

    lemma OwnedLingers(s: State, token: Id)
      ensures Owned(s, token) && !HasIntent(s.db, token) ==> Lingers(s.db, token)
    {
    }

    /** From the created sandbox to the answer. */
    method Finish(public: Id, n: Id, provenance: Provenance, sameImage: bool, others: Others, ghost token: Id, ghost m0: Memory, ghost s0: State)
      returns (r: Result<Id>)
      requires client.Valid() && client.Books() && Since(m0, s0, token, n, public, client.M(), client.S()) && client.S() == s0
      modifies client, client.repo, client.daemon
      ensures client.Valid() && client.Books() && Onward(s0, client.S())
      ensures r.Ok? ==> r.value == public && Succeeded(public, n, token)
      ensures r.Err? ==> Failed(token, m0.process.boots)
      ensures r.Ok? ==> sameImage && (others.adopted == [] ==> client.repo.rows[public].provenance == provenance)
      ensures Alone(old(client.process), others) ==> old(client.faults) <= client.faults
      ensures Alone(old(client.process), others) && MayAdopt(s0.db, public, n) && Admitted(s0.db, n, token) ==>
        && (client.faults == old(client.faults) ==> (r.Ok? <==> sameImage) && (r.Err? ==> Undone(client.S(), token)))
        && (client.faults == old(client.faults) + 1 && sameImage ==> r.Ok? || Undone(client.S(), token))
    {
      hide Inv, Onward, Keeps, Recorded, Since, Watched, EnvStep, OwnerOf, IntentOf, Consistent, Failed, Spares, Undone, Admitted;
      Meanwhile(others.created, public, n, token, m0, s0);
      ghost var s1 := client.S();
      SinceMeans(m0, s0, token, n, public, client.M(), s1);
      var adopted := Adopt(public, n, provenance, sameImage, token, m0, s0);
      ghost var s2 := client.S();
      Meanwhile(others.adopted, public, n, token, m0, s0);
      if adopted.Ok? {
        AdoptedStays(s2, client.S(), token);
      }
      if Admitted(s0.db, n, token) && client.Lightly(s0.db, client.repo.T()) {
        InvParts(s0, Docker);
        InvParts(client.S(), Docker);
        LightlyAdmitted(s0.db, client.repo.T(), n, token, Docker);
      }
      r := Answer(adopted, public, n, provenance, others.discarded, token, m0, s0);
    }

    /** The row of an adopted sandbox is read back; otherwise the sandbox is undone. */
    method Answer(adopted: Result<()>, public: Id, n: Id, provenance: Provenance, discarded: seq<Event>, ghost token: Id, ghost m0: Memory, ghost s0: State)
      returns (r: Result<Id>)
      requires client.Valid() && client.Books() && Since(m0, s0, token, n, public, client.M(), client.S())
      requires adopted.Ok? ==> token in client.ledger.adopted
      modifies client, client.repo, client.daemon
      ensures client.Valid() && client.Books() && Onward(s0, client.S())
      ensures r.Ok? ==> r.value == public && Succeeded(public, n, token) && adopted.Ok? && client.repo.T() == old(client.repo.T())
                        && client.faults == old(client.faults)
      ensures r.Err? ==> Failed(token, m0.process.boots)
      ensures discarded == [] ==> old(client.faults) <= client.faults
      ensures discarded == [] && !old(client.process.closing) && public in old(client.repo.rows) && Admitted(old(client.repo.T()), n, token) ==>
        && (client.faults == old(client.faults) ==> (r.Ok? <==> adopted.Ok?) && (r.Err? ==> Undone(client.S(), token)))
        && (client.faults == old(client.faults) + 1 && adopted.Ok? ==> r.Ok? || Undone(client.S(), token))
    {
      hide Inv, Onward, Keeps, Recorded, Since, Watched, EnvStep, OwnerOf, IntentOf, Consistent, Failed, Spares, Undone, Admitted;
      ghost var s3 := client.S();
      SinceOnward(m0, s0, token, n, public, client.M(), s3);
      if adopted.Ok? {
        var f := client.Pass();
        ghost var s4 := client.S();
        EnvOnward(s3, s4);
        EnvSame(s3, s4);
        AdoptedStays(s3, s4, token);
        Passed(public, n, token, m0, s0, s3);
        if f.Clean? && public in client.repo.rows {
          FinalIsFinal(s4, token, Docker);
          SinceMeans(m0, s0, token, n, public, client.M(), s4);
          return Ok(public);
        }
      }
      ghost var failures;
      r, failures := Discard(public, n, provenance, discarded, token, m0, s0);
    }

    /** Nobody else is at work, and the backend is not closing. */
    predicate Alone(process: Process, others: Others) {
      !process.closing && others == Others([], [], [])
    }

    /** Others run. */
    method Meanwhile(events: seq<Event>, public: Id, n: Id, ghost token: Id, ghost m0: Memory, ghost s0: State)
      requires client.Valid() && client.Books() && Since(m0, s0, token, n, public, client.M(), client.S())
      modifies client, client.repo, client.daemon
      ensures client.Valid() && client.Books() && Since(m0, s0, token, n, public, client.M(), client.S())
      ensures Onward(s0, client.S()) && Onward(old(client.S()), client.S())
      ensures Keeps(old(client.M()), old(client.S()), client.M(), client.S())
      ensures events == [] ==> unchanged(client, client.repo, client.daemon)
    {
      hide Inv, Onward, Keeps, Recorded, Spares;
      ghost var m1, s1 := client.M(), client.S();
      hide Since;
      client.Run(events);
      SinceGoesOn(m0, s0, token, n, public, m1, s1, client.M(), client.S());
      SinceOnward(m0, s0, token, n, public, client.M(), client.S());
    }

    lemma SinceOnward(m0: Memory, s0: State, token: Id, n: Id, public: Id, m: Memory, s: State)
      requires Since(m0, s0, token, n, public, m, s)
      ensures Onward(s0, s) && m0.process.boots <= m.process.boots
    {
      hide Inv, Onward;
    }

    /** A call has passed; the process remembers what it did. */
    lemma Passed(public: Id, n: Id, token: Id, m0: Memory, s0: State, s: State)
      requires client.Valid() && Since(m0, s0, token, n, public, client.M(), s) && EnvStep(s, client.S()) && Recorded(client.M(), s)
      ensures Since(m0, s0, token, n, public, client.M(), client.S()) && client.Books() && Onward(s0, client.S())
    {
      hide Inv, Onward, Keeps, Recorded, Since, EnvStep, Spares;
      EnvOnward(s, client.S());
      Remembered(client.M(), s, client.M(), client.S());
      SinceGoesOn(m0, s0, token, n, public, client.M(), s, client.M(), client.S());
      SinceOnward(m0, s0, token, n, public, client.M(), client.S());
    }

    lemma AdoptedStays(s: State, s': State, token: Id)
      requires Onward(s, s') && token in s.ledger.adopted
      ensures token in s'.ledger.adopted
    {
    }

    lemma FinalIsFinal(s: State, token: Id, rt: Runtime)
      requires Inv(s, rt) && token in s.ledger.adopted
      ensures forall o <- s.db.ops :: s.db.ops[o].token == token ==> !s.db.ops[o].kind.Create?
    {
    }

    /** Undo the sandbox, or leave it to the background recovery and mark it. The mark is there unless a call has failed
        since the number of failures was taken, before the marking. */
    method Discard(public: Id, n: Id, provenance: Provenance, events: seq<Event>, ghost token: Id, ghost m0: Memory, ghost s0: State)
      returns (r: Result<Id>, ghost failures: nat)
      requires client.Valid() && client.Books() && Since(m0, s0, token, n, public, client.M(), client.S())
      modifies client, client.repo, client.daemon
      ensures client.faults == failures && public in client.repo.rows && client.repo.rows[public].nativeId == n ==>
        client.repo.rows[public].provenance == provenance
      ensures client.Valid() && client.Books() && Onward(s0, client.S()) && r.Err? && Failed(token, m0.process.boots)
      ensures events == [] ==> old(client.faults) <= client.faults
      ensures events == [] && client.faults == old(client.faults) && !old(client.process.closing) && Admitted(old(client.repo.T()), n, token) ==>
        Undone(client.S(), token)
    {
      hide Inv, Onward, Keeps, Recorded, Since, Watched, EnvStep, OnlyOwner, IntentOf, Consistent, Undone, Owned, RowOf, Absent, Lingers, HasIntent;
      ghost var m1, s1 := client.M(), client.S();
      SinceMeans(m0, s0, token, n, public, m1, s1);
      if OwnerOf(s1.db, n).Some? {
        OwnerToken(s1, n, Docker);
      }
      hide OwnerOf;
      var discarded := client.DiscardCreated(n);
      ghost var m2, s2 := client.M(), client.S();
      OwnerOnward(s1, s2, n, true);
      if discarded.Ok? {
        GoneIsRecalled(m1, s1, m2, s2, n, Docker);
        SinceGoesOn(m0, s0, token, n, public, m1, s1, m2, s2);
        SinceOnward(m0, s0, token, n, public, m2, s2);
        NothingLeft(s2, token);
        SinceMeans(m0, s0, token, n, public, m2, s2);
        return Err(Mismatch), client.faults;
      }
      Remembered(m1, s1, m2, s2);
      SinceGoesOn(m0, s0, token, n, public, m1, s1, m2, s2);
      QueuedIsWatched(m0, s0, token, n, public, m2, s2);
      Meanwhile(events, public, n, token, m0, s0);
      ghost var m3, s3 := client.M(), client.S();
      StillWatched(m0, s0, token, n, public, m2, s2, m3, s3);
      failures := client.faults;
      var marked := Recover(public, n, provenance);
      Remembered(m3, s3, client.M(), client.S());
      SinceGoesOn(m0, s0, token, n, public, m3, s3, client.M(), client.S());
      StillWatched(m0, s0, token, n, public, m3, s3, client.M(), client.S());
      SinceOnward(m0, s0, token, n, public, client.M(), client.S());
      SinceMeans(m0, s0, token, n, public, client.M(), client.S());
      OneOfThree(client.S(), token, Docker);
      OwnedLingers(client.S(), token);
      return Err(Mismatch), failures;
    }

    /** A deletion of the sandbox is admitted. */
    ghost predicate Admitted(t: Tables, n: Id, token: Id) {
      OwnerOf(t, n).Some? && OwnerOf(t, n).value.token == token && client.Admits(t, n, Kind.Delete)
    }

    lemma StillWatched(m0: Memory, s0: State, token: Id, n: Id, public: Id, m: Memory, s: State, m': Memory, s': State)
      requires Since(m0, s0, token, n, public, m, s) && Watched(m, s, token, m0.process.boots)
      requires Since(m0, s0, token, n, public, m', s') && Onward(s, s') && Keeps(m, s, m', s')
      ensures Watched(m', s', token, m0.process.boots)
    {
      SinceMeans(m0, s0, token, n, public, m, s);
      SinceOnward(m0, s0, token, n, public, m, s);
      hide Watched, Inv, Onward, Keeps;
      WatchedStays(m, s, m', s', token, m0.process.boots);
    }

    lemma NothingLeft(s: State, token: Id)
      requires RowOf(s.db, token).None? && IntentOf(s.db, token).None? && Absent(s.native, token)
      ensures Undone(s, token) && forall k <- s.db.rows :: s.db.rows[k].token != token
    {
    }
  }
}
