/** internal/images/store.go and publish.go: the catalog of references. The maps of the source are iterated in an
    arbitrary order, so everything below is proved for every order. */
module Catalogs {
  import opened Prelude
  import opened OciGraphs

  type Prepared = map<Platform, Descriptor>
  datatype Entry = Entry(root: Descriptor, prepared: Prepared)
  type Catalog = map<string, Entry>

  /** References with the same root have the same prepared platforms. */
  ghost predicate Shared(c: Catalog) {
    forall a <- c, b <- c :: c[a].root.digest == c[b].root.digest ==> c[a].prepared == c[b].prepared
  }

  /** Some reference with this root has this platform. */
  ghost predicate Has(c: Catalog, root: Digest, p: Platform) {
    exists r :: r in c && c[r].root.digest == root && p in c[r].prepared
  }

  ghost predicate HasAs(c: Catalog, root: Digest, p: Platform, d: Descriptor) {
    exists r :: r in c && c[r].root.digest == root && p in c[r].prepared && c[r].prepared[p] == d
  }

  /** c' is c with its platforms shared out: nothing else changes, every tag of a root gets exactly the platforms
      that some tag of it had, under a descriptor that some tag of it had. */
  ghost predicate SharesOut(c: Catalog, c': Catalog) {
    && c'.Keys == c.Keys && Shared(c')
    && forall r <- c ::
         && c'[r].root == c[r].root
         && (forall p :: p in c'[r].prepared <==> Has(c, c[r].root.digest, p))
         && (forall p <- c'[r].prepared :: HasAs(c, c[r].root.digest, p, c'[r].prepared[p]))
  }

  /** Everything was gathered under its root. */
  lemma Gathered(c: Catalog, prepared: map<Digest, Prepared>, c': Catalog)
    requires forall r <- c :: c[r].root.digest in prepared
    requires forall h <- prepared, p <- prepared[h] :: HasAs(c, h, p, prepared[h][p])
    requires forall r <- c :: forall p <- c[r].prepared :: p in prepared[c[r].root.digest]
    requires c' == map ref | ref in c :: c[ref].(prepared := prepared[c[ref].root.digest])
    ensures SharesOut(c, c')
  {
  }

  /** The normalisation at the end of a writing transaction. */
  method ShareOut(c: Catalog) returns (c': Catalog)
    ensures SharesOut(c, c')
    ensures Shared(c) ==> c' == c
  {
    var prepared: map<Digest, Prepared> := map[];
    var rest := c.Keys;
    while rest != {}
      invariant rest <= c.Keys
      invariant forall r <- c :: r !in rest ==> c[r].root.digest in prepared
      invariant forall h <- prepared, p <- prepared[h] :: HasAs(c, h, p, prepared[h][p])
      invariant forall r <- c :: r !in rest ==> forall p <- c[r].prepared :: p in prepared[c[r].root.digest]
    {
      var ref :| ref in rest;
      var key := c[ref].root.digest;
      var merged := (if key in prepared then prepared[key] else map[]) + c[ref].prepared;
      forall p | p in merged ensures HasAs(c, key, p, merged[p]) {
        if p in c[ref].prepared {
          assert c[ref].prepared[p] == merged[p];
        }
      }
      prepared := prepared[key := merged];
      rest := rest - {ref};
    }
    c' := map ref | ref in c :: c[ref].(prepared := prepared[c[ref].root.digest]);
    Gathered(c, prepared, c');
    if Shared(c) {
      SharedStays(c, c');
    }
  }

  /** In a shared catalog, what one tag of a root has, every tag of it has. */
  lemma EveryTagHas(c: Catalog, r: string, p: Platform, d: Descriptor)
    requires Shared(c) && r in c
    ensures Has(c, c[r].root.digest, p) <==> p in c[r].prepared
    ensures HasAs(c, c[r].root.digest, p, d) ==> p in c[r].prepared && c[r].prepared[p] == d
  {
  }

  lemma SharedOut(c: Catalog, c': Catalog, r: string)
    requires SharesOut(c, c') && r in c
    ensures r in c' && c'[r].root == c[r].root
    ensures forall p :: p in c'[r].prepared <==> Has(c, c[r].root.digest, p)
    ensures forall p <- c'[r].prepared :: HasAs(c, c[r].root.digest, p, c'[r].prepared[p])
  {
  }

  /** Normalising a catalog that is already shared changes nothing. */
  lemma SharedStays(c: Catalog, c': Catalog)
    requires Shared(c) && SharesOut(c, c')
    ensures c' == c
  {
    assert c'.Keys == c.Keys;
    hide Shared, SharesOut, Has, HasAs;
    forall r | r in c ensures c'[r] == c[r] {
      TagStays(c, c', r);
    }
  }

  lemma TagStays(c: Catalog, c': Catalog, r: string)
    requires Shared(c) && SharesOut(c, c') && r in c && r in c'
    ensures c'[r] == c[r]
  {
    SharedOut(c, c', r);
    EveryTagHasAll(c, r);
    hide Shared, SharesOut, Has, HasAs;
    SamePrepared(c, c[r].root.digest, c[r].prepared, c'[r].prepared);
  }

  lemma EveryTagHasAll(c: Catalog, r: string)
    requires Shared(c) && r in c
    ensures forall p :: Has(c, c[r].root.digest, p) <==> p in c[r].prepared
    ensures forall p, d :: HasAs(c, c[r].root.digest, p, d) ==> p in c[r].prepared && c[r].prepared[p] == d
  {
    hide Shared, Has, HasAs;
    forall p: Platform ensures Has(c, c[r].root.digest, p) <==> p in c[r].prepared {
      EveryTagHas(c, r, p, c[r].root);
    }
    forall p: Platform, d: Descriptor
      ensures HasAs(c, c[r].root.digest, p, d) ==> p in c[r].prepared && c[r].prepared[p] == d
    {
      EveryTagHas(c, r, p, d);
    }
  }

  lemma SamePrepared(c: Catalog, h: Digest, was: Prepared, now: Prepared)
    requires forall p :: p in now <==> Has(c, h, p)
    requires forall p :: Has(c, h, p) <==> p in was
    requires forall p <- now :: HasAs(c, h, p, now[p])
    requires forall p, d :: HasAs(c, h, p, d) ==> p in was && was[p] == d
    ensures now == was
  {
    hide Has, HasAs;
  }

  /** Every platform of a root was prepared under one descriptor. */
  ghost predicate PreparedOnce(c: Catalog) {
    forall h, p, d, d' | HasAs(c, h, p, d) && HasAs(c, h, p, d') :: d == d'
  }

  /** Whatever order the maps are iterated in, the platforms of every reference come out the same; and so do the
      descriptors, if every platform of a root was prepared once. */
  lemma OrderDoesNotMatter(c: Catalog, c1: Catalog, c2: Catalog)
    requires SharesOut(c, c1) && SharesOut(c, c2)
    ensures c1.Keys == c2.Keys && forall r <- c1 :: c1[r].root == c2[r].root && c1[r].prepared.Keys == c2[r].prepared.Keys
    ensures PreparedOnce(c) ==> c1 == c2
  {
    assert c1.Keys == c.Keys && c2.Keys == c.Keys;
    hide SharesOut, PreparedOnce;
    forall r | r in c
      ensures c1[r].root == c2[r].root && c1[r].prepared.Keys == c2[r].prepared.Keys
      ensures PreparedOnce(c) ==> c1[r] == c2[r]
    {
      SharedOut(c, c1, r);
      SharedOut(c, c2, r);
      SameForRoot(c, c[r].root.digest, c1[r].prepared, c2[r].prepared);
    }
  }

  lemma SameForRoot(c: Catalog, h: Digest, a: Prepared, b: Prepared)
    requires forall p :: p in a <==> Has(c, h, p)
    requires forall p :: p in b <==> Has(c, h, p)
    requires forall p <- a :: HasAs(c, h, p, a[p])
    requires forall p <- b :: HasAs(c, h, p, b[p])
    ensures a.Keys == b.Keys
    ensures PreparedOnce(c) ==> a == b
  {
  }

  /******* Operations *******/

  /** What becomes of one published tag: it has the root and every descriptor it is published with; what else it has,
      and all of that, it had before for the same root. */
  ghost predicate Merges(c: Catalog, key: string, e: Entry, merged: Entry) {
    && merged.root == e.root
    && (forall p <- e.prepared :: p in merged.prepared && merged.prepared[p] == e.prepared[p])
    && (forall p <- merged.prepared :: p !in e.prepared ==>
          key in c && c[key].root.digest == e.root.digest && p in c[key].prepared && merged.prepared[p] == c[key].prepared[p])
    && (key in c && c[key].root.digest == e.root.digest ==> c[key].prepared.Keys <= merged.prepared.Keys)
  }

  /** What a publication is for: every published tag is merged with what it was, and no other tag changes. */
  ghost predicate Publishes(c: Catalog, entries: Catalog, c': Catalog) {
    && c'.Keys == c.Keys + entries.Keys
    && forall k <- c' :: if k in entries then Merges(c, k, entries[k], c'[k]) else c'[k] == c[k]
  }

  method KeepPlatforms(old_: Prepared, new_: Prepared) returns (kept: Prepared)
    ensures kept == old_ + new_
  {
    kept := new_;
    var rest := old_.Keys;
    while rest != {}
      invariant rest <= old_.Keys
      invariant forall p :: p in kept <==> p in new_ || (p in old_ && p !in rest)
      invariant forall p <- kept :: kept[p] == if p in new_ then new_[p] else old_[p]
    {
      var p :| p in rest;
      if p !in new_ {
        kept := kept[p := old_[p]];
      }
      rest := rest - {p};
    }
  }

  /** The catalog merge of publish: new descriptors win, platforms that only the old entry had are kept. */
  method Publish(c: Catalog, entries: Catalog) returns (c': Catalog)
    ensures Publishes(c, entries, c')
  {
    c' := c;
    var rest := entries.Keys;
    while rest != {}
      invariant rest <= entries.Keys
      invariant c'.Keys == c.Keys + (entries.Keys - rest)
      invariant forall k <- c' :: if k in entries && k !in rest then Merges(c, k, entries[k], c'[k]) else c'[k] == c[k]
    {
      var key :| key in rest;
      var e := entries[key];
      if key in c' && c'[key].root.digest == e.root.digest {
        var kept := KeepPlatforms(c'[key].prepared, e.prepared);
        e := e.(prepared := kept);
      }
      assert Merges(c, key, entries[key], e);
      c' := c'[key := e];
      rest := rest - {key};
    }
  }

  /** Parsing of references; nothing is known about it. */
  type Parser = string -> Option<string>

  /** lookup: by name, or else by the digest of the root. */
  method Lookup(c: Catalog, parse: Parser, name: Digest -> string, ref: string) returns (r: Result<Entry>)
    ensures parse(ref).Some? && parse(ref).value in c ==> r == Ok(c[parse(ref).value])
    ensures !(parse(ref).Some? && parse(ref).value in c) ==>
      if exists k :: k in c && name(c[k].root.digest) == ref
      then r.Ok? && exists k :: k in c && name(c[k].root.digest) == ref && c[k] == r.value
      else r == Err(NotFound)
  {
    var key := parse(ref);
    if key.Some? && key.value in c {
      return Ok(c[key.value]);
    }
    if k: string :| k in c && name(c[k].root.digest) == ref {
      return Ok(c[k]);
    }
    return Err(NotFound);
  }

  /** What a lookup prepares does not depend on the order in which the catalog is searched. */
  lemma LookupIsDetermined(c: Catalog, name: Digest -> string, ref: string, a: string, b: string)
    requires Shared(c) && a in c && b in c && name(c[a].root.digest) == ref && name(c[b].root.digest) == ref
    requires forall g, h :: name(g) == name(h) ==> g == h
    ensures c[a].root.digest == c[b].root.digest && c[a].prepared == c[b].prepared
  {
  }

  /** Remove: one tag by its name, or all tags of a digest. */
  method Remove(c: Catalog, parse: Parser, name: Digest -> string, ref: string, force: bool) returns (r: Result<()>, c': Catalog)
    requires forall g, h :: name(g) == name(h) ==> g == h
    ensures parse(ref).Some? && parse(ref).value in c ==> r.Ok? && c' == c - {parse(ref).value}
    ensures !(parse(ref).Some? && parse(ref).value in c) ==>
      && (forall k :: k in c' <==> k in c && name(c[k].root.digest) != ref)
      && (r.Ok? <==> force || exists k :: k in c && name(c[k].root.digest) == ref)
    ensures forall k <- c' :: k in c && c'[k] == c[k]
  {
    var found := Lookup(c, parse, name, ref);
    if found.Err? {
      return if force then Ok(()) else Err(NotFound), c;
    }
    var key := parse(ref);
    if key.Some? && key.value in c {
      return Ok(()), c - {key.value};
    }
    c' := c;
    var rest := c.Keys;
    while rest != {}
      invariant rest <= c.Keys
      invariant c' == map k | k in c && (k in rest || c[k].root.digest != found.value.root.digest) :: c[k]
    {
      var k :| k in rest;
      if c[k].root.digest == found.value.root.digest {
        c' := c' - {k};
      }
      rest := rest - {k};
    }
    r := Ok(());
  }

  /******* What the operations keep *******/

  /** Publishing, then sharing out, loses no platform of a root that is still tagged, and gives every tag of a
      published root the platforms of the archive. */
  lemma PublishKeeps(c: Catalog, entries: Catalog, m: Catalog, c': Catalog)
    requires Shared(c) && Publishes(c, entries, m) && SharesOut(m, c')
    ensures Shared(c')
    ensures forall k, p :: k in entries && p in entries[k].prepared ==> k in c' && p in c'[k].prepared
    ensures forall r, p :: r in c && r in c' && c'[r].root.digest == c[r].root.digest && p in c[r].prepared ==> p in c'[r].prepared
  {
  }

  /** After a publication every tag has its own root, and only platforms that its root was prepared for, in the archive
      or before. */
  lemma PublishShares(c: Catalog, entries: Catalog, m: Catalog, c': Catalog)
    requires Publishes(c, entries, m) && SharesOut(m, c')
    ensures c'.Keys == c.Keys + entries.Keys
    ensures forall k <- c' :: c'[k].root == if k in entries then entries[k].root else c[k].root
    ensures forall k <- c', p <- c'[k].prepared ::
      HasAs(entries, c'[k].root.digest, p, c'[k].prepared[p]) || HasAs(c, c'[k].root.digest, p, c'[k].prepared[p])
  {
    assert c'.Keys == m.Keys;
    forall k, p | k in c' && p in c'[k].prepared
      ensures HasAs(entries, c'[k].root.digest, p, c'[k].prepared[p]) || HasAs(c, c'[k].root.digest, p, c'[k].prepared[p])
    {
      SharedOut(m, c', k);
      CameFrom(c, entries, m, c'[k].root.digest, p, c'[k].prepared[p]);
    }
  }

  lemma CameFrom(c: Catalog, entries: Catalog, m: Catalog, h: Digest, p: Platform, d: Descriptor)
    requires Publishes(c, entries, m) && HasAs(m, h, p, d)
    ensures HasAs(entries, h, p, d) || HasAs(c, h, p, d)
  {
    var r :| r in m && m[r].root.digest == h && p in m[r].prepared && m[r].prepared[p] == d;
    if r in entries && p in entries[r].prepared {
      assert HasAs(entries, h, p, d);
    } else {
      assert r in c && p in c[r].prepared && c[r].prepared[p] == d;
    }
  }

  /** A tag that is removed, or moved to another root, takes nothing from the other tags of its root. */
  lemma OthersKeepTheirs(c: Catalog, m: Catalog, c': Catalog, r: string)
    requires Shared(c) && SharesOut(m, c') && r in c && r in m && m[r] == c[r]
    ensures c'[r].root == c[r].root && c[r].prepared.Keys <= c'[r].prepared.Keys
  {
  }

  /******* Every history of the catalog *******/

  datatype Change = PublishAll(entries: Catalog) | RemoveOne(ref: string, force: bool)

  /** What one writing transaction does to a shared catalog. A publication puts every published tag on its root with its
      platforms, loses no platform of a root that is still tagged, and invents none; a removal takes the one tag of that
      name, or else all tags of that digest, and changes no other entry. */
  ghost predicate Changes(c: Catalog, parse: Parser, name: Digest -> string, change: Change, c': Catalog) {
    match change
    case RemoveOne(ref, _) =>
      && (forall k <- c' :: k in c && c'[k] == c[k])
      && (if parse(ref).Some? && parse(ref).value in c then c' == c - {parse(ref).value}
          else forall k <- c :: k in c' <==> name(c[k].root.digest) != ref)
    case PublishAll(entries) =>
      && c'.Keys == c.Keys + entries.Keys
      && (forall k <- c' :: c'[k].root == if k in entries then entries[k].root else c[k].root)
      && (forall k, p :: k in entries && p in entries[k].prepared ==> p in c'[k].prepared)
      && (forall r, p :: r in c && c'[r].root.digest == c[r].root.digest && p in c[r].prepared ==> p in c'[r].prepared)
      && (forall k <- c', p <- c'[k].prepared ::
            HasAs(entries, c'[k].root.digest, p, c'[k].prepared[p]) || HasAs(c, c'[k].root.digest, p, c'[k].prepared[p]))
  }

  /** One writing transaction. */
  method Transact(c: Catalog, parse: Parser, name: Digest -> string, change: Change) returns (c': Catalog)
    requires forall g, h :: name(g) == name(h) ==> g == h
    ensures Shared(c') || c' == c
    ensures Shared(c) ==> Changes(c, parse, name, change, c')
  {
    hide SharesOut, Shared, HasAs;
    var m := c;
    match change {
      case PublishAll(entries) => m := Publish(c, entries);
      case RemoveOne(ref, force) =>
        var r;
        r, m := Remove(c, parse, name, ref, force);
        if r.Err? {
          return c;
        }
    }
    c' := ShareOut(m);
    SharedAfter(m, c');
    if change.PublishAll? && Shared(c) {
      PublishKeeps(c, change.entries, m, c');
      PublishShares(c, change.entries, m, c');
    }
    if change.RemoveOne? && Shared(c) {
      PartIsShared(c, m);
      SharedStays(m, c');
    }
  }

  lemma SharedAfter(c: Catalog, c': Catalog)
    requires SharesOut(c, c')
    ensures Shared(c') && c'.Keys == c.Keys
  {
  }

  lemma PartIsShared(c: Catalog, m: Catalog)
    requires Shared(c) && forall k <- m :: k in c && m[k] == c[k]
    ensures Shared(m)
  {
  }

  /** Every history of the catalog: it is shared after every transaction, and each does what it is for. */
  method History(parse: Parser, name: Digest -> string, changes: seq<Change>) returns (c: Catalog, ghost states: seq<Catalog>)
    requires forall g, h :: name(g) == name(h) ==> g == h
    ensures |states| == |changes| + 1 && states[0] == map[] && states[|changes|] == c
    ensures forall i | 0 <= i < |states| :: Shared(states[i])
    ensures forall i | 0 <= i < |changes| :: Changes(states[i], parse, name, changes[i], states[i + 1])
  {
    hide Changes;
    c := map[];
    states := [c];
    for i := 0 to |changes|
      invariant |states| == i + 1 && states[0] == map[] && states[i] == c
      invariant forall j | 0 <= j <= i :: Shared(states[j])
      invariant forall j | 0 <= j < i :: Changes(states[j], parse, name, changes[j], states[j + 1])
    {
      c := Transact(c, parse, name, changes[i]);
      states := states + [c];
    }
  }
}
