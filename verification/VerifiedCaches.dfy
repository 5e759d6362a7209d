/** internal/images/verified.go: a process-local cache of verified images. An entry is trusted as long as every file
    it was computed from has the same stamp. */
module VerifiedCaches {
  import opened Prelude
  import opened OciGraphs
  import opened OciLayers
  import opened OciWalks

  const MAX_ENTRIES: nat := 64
  const MAX_FILES: nat := 256

  datatype Key = Key(digest: Digest, size: int, media: Media)
  datatype Graph = Graph(files: map<Digest, nat>, size: int)

  function KeyOf(d: Descriptor): Key {
    Key(d.digest, d.size, d.media)
  }

  /** Equal stamps mean equal content: what a file holds is determined by its stamp. */
  ghost predicate Honest(st: Blobs, written: nat -> (Bytes, bool)) {
    forall h <- st :: (st[h].bytes, st[h].regular) == written(st[h].stamp)
  }

  /** The store at the four moments of one verification; a file with the same stamp before and after was not
      touched in between. */
  ghost predicate Timeline(before: Blobs, during: Blobs, layers: Blobs, after: Blobs) {
    forall h | h in before && h in after && before[h].stamp == after[h].stamp ::
      h in during && h in layers && during[h] == before[h] && layers[h] == before[h]
  }

  /** What verifying d from scratch concludes about one state of the store. */
  ghost predicate Verifies(f: Formats, st: Blobs, d: Descriptor, size: int) {
    d.media.IsImage() && Validate(f, st, d, 0, {}).result == Ok(size) && LayersOk(f, st, d)
  }

  /** Where a cache entry came from. */
  datatype Origin = Origin(st: Blobs, d: Descriptor)

  ghost predicate Justifies(f: Formats, written: nat -> (Bytes, bool), o: Origin, key: Key, g: Graph) {
    && KeyOf(o.d) == key && Honest(o.st, written) && Verifies(f, o.st, o.d, g.size)
    && g.files.Keys == Validate(f, o.st, o.d, 0, {}).seen
    && forall h <- g.files :: h in o.st && o.st[h].stamp == g.files[h]
  }

  /** The stamps of all files of g are unchanged. */
  predicate Fresh(st: Blobs, g: Graph) {
    forall h <- g.files :: h in st && st[h].regular && st[h].stamp == g.files[h]
  }

  /** The entry for d: every file that its validation marks, with its stamp. */
  ghost function Snapshot(f: Formats, st: Blobs, d: Descriptor): Graph {
    var v := Validate(f, st, d, 0, {});
    Graph(map h | h in v.seen && h in st :: st[h].stamp, if v.result.Ok? then v.result.value else 0)
  }

  /** The image verifies, and none of its files has another stamp afterwards. */
  ghost predicate Stays(f: Formats, before: Blobs, after: Blobs, d: Descriptor) {
    Verifies(f, before, d, Snapshot(f, before, d).size) && Fresh(after, Snapshot(f, before, d))
  }

  /** The key of the cache leaves out external URLs and embedded data. A hit is right exactly for descriptors that
      validation would not refuse for these; OciPrepared says which descriptors reach the cache. */
  lemma HitIffAcceptable(f: Formats, written: nat -> (Bytes, bool), o: Origin, g: Graph, st: Blobs, d: Descriptor)
    requires Justifies(f, written, o, KeyOf(d), g) && Honest(st, written) && Fresh(st, g)
    ensures Verifies(f, st, d, g.size) <==> Acceptable(f, d)
  {
    assert Agree(o.st, st, Validate(f, o.st, o.d, 0, {}).seen);
    ValidateLocal(f, o.st, st, o.d, 0, {});
    LayersLocal(f, o.st, st, o.d);
    assert Acceptable(f, o.d);
    if Acceptable(f, d) {
      SameReference(f, st, o.d, d);
    }
  }

  class VerificationCache {
    const f: Formats
    ghost const written: nat -> (Bytes, bool)
    var entries: map<Key, Graph>
    ghost var origins: map<Key, Origin>

    ghost predicate Valid()
      reads this
    {
      && |entries| <= MAX_ENTRIES && entries.Keys == origins.Keys
      && forall k <- entries :: Justifies(f, written, origins[k], k, entries[k])
    }

    constructor (f: Formats, ghost written: nat -> (Bytes, bool))
      ensures this.f == f && this.written == written && Valid() && entries == map[]
    {
      this.f, this.written, entries, origins := f, written, map[], map[];
    }

    /** The comparison of the stamps of an entry with the files as they are now. */
    method IsFresh(st: Blobs, g: Graph) returns (r: bool)
      ensures r <==> Fresh(st, g)
    {
      var rest := g.files.Keys;
      while rest != {}
        invariant rest <= g.files.Keys
        invariant forall h <- g.files :: h !in rest ==> h in st && st[h].regular && st[h].stamp == g.files[h]
      {
        var h :| h in rest;
        if h !in st || !st[h].regular || st[h].stamp != g.files[h] {
          return false;
        }
        rest := rest - {h};
      }
      return true;
    }

    /** verified: now is the store when the cache is consulted, the other four are its states during a full
        verification. A result is what full verification concludes, about the store now if it was a hit and the
        descriptor is acceptable, about the store during the verification otherwise. */
    method Verified(d: Descriptor, now: Blobs, before: Blobs, during: Blobs, layers: Blobs, after: Blobs) returns (r: Result<int>, hit: bool)
      requires Valid() && Honest(now, written) && Honest(before, written) && Timeline(before, during, layers, after)
      modifies this
      ensures Valid()
      ensures hit <==> d.media.IsImage() && KeyOf(d) in old(entries) && Fresh(now, old(entries)[KeyOf(d)])
      ensures hit ==> entries == old(entries) && r == Ok(old(entries)[KeyOf(d)].size) && (Verifies(f, now, d, r.value) <==> Acceptable(f, d))
      ensures !hit ==> (r.Ok? <==> Stays(f, before, after, d)) && entries == Learnt(old(entries), before, d, r)
      ensures !hit && r.Ok? ==> Verifies(f, before, d, r.value) && Validate(f, before, d, 0, {}) == Validate(f, during, d, 0, {})
    {
      if !d.media.IsImage() {
        return Err(Invalid), false;
      }
      var key := KeyOf(d);
      if key in entries {
        var current := IsFresh(now, entries[key]);
        if current {
          HitIffAcceptable(f, written, origins[key], entries[key], now, d);
          return Ok(entries[key].size), true;
        }
      }
      r := Full(d, before, during, layers, after);
      hit := false;
    }

    /** What the cache knows after a verification from scratch: a verified image of at most MAX_FILES files is stored
        under its key, in a cache that was emptied if it was full; otherwise nothing changes. */
    ghost function Learnt(was: map<Key, Graph>, st: Blobs, d: Descriptor, r: Result<int>): map<Key, Graph> {
      var g := Snapshot(f, st, d);
      if r.Err? || |g.files| > MAX_FILES then was
      else (if |was| >= MAX_ENTRIES then map[] else was)[KeyOf(d) := g]
    }

    /** A verification from scratch: collect, validate, and see whether anything changed meanwhile. */
    method Full(d: Descriptor, before: Blobs, during: Blobs, layers: Blobs, after: Blobs) returns (r: Result<int>)
      requires Valid() && d.media.IsImage() && Honest(before, written) && Timeline(before, during, layers, after)
      modifies this
      ensures Valid()
      ensures r.Ok? <==> Stays(f, before, after, d)
      ensures r.Ok? ==> Verifies(f, before, d, r.value) && Validate(f, before, d, 0, {}) == Validate(f, during, d, 0, {})
      ensures entries == Learnt(old(entries), before, d, r)
    {
      hide Validate, Collect, LayersOk, Justifies, Honest, Timeline, Verifies, Stays, Fresh;
      if Stays(f, before, after, d) {
        NothingStirs(f, d, before, during, layers, after);
      }
      var collector := new Walker(f, before);
      var collected := collector.CollectFiles(d, 0);
      if collected.Err? {
        return Err(collected.error);
      }
      var validator := new Walker(f, during);
      r := validator.ValidateGraph(d, 0);
      if r.Err? {
        return;
      }
      var checked := ValidateLayers(f, layers, d);
      if checked.Err? {
        return Err(checked.error);
      }
      CollectedFiles(f, before, d, 0, {});
      var g := Graph(map h | h in collector.seen && h in before :: before[h].stamp, r.value);
      var same := IsFresh(after, g);
      if !same {
        return Err(Mismatch);
      }
      Unchanged(f, d, before, during, layers, after, g);
      if |g.files| <= MAX_FILES {
        Remember(KeyOf(d), g, Origin(before, d));
      }
    }

    /** The cache is emptied when it is full. */
    method Remember(key: Key, g: Graph, ghost o: Origin)
      requires Valid() && Justifies(f, written, o, key, g)
      modifies this
      ensures Valid() && key in entries && entries[key] == g
      ensures entries == (if |old(entries)| >= MAX_ENTRIES then map[] else old(entries))[key := g]
    {
      hide Justifies;
      if |entries| >= MAX_ENTRIES {
        entries, origins := map[], map[];
      }
      OneMore(entries, key, g);
      entries, origins := entries[key := g], origins[key := o];
    }
  }

  lemma OneMore(entries: map<Key, Graph>, key: Key, g: Graph)
    ensures |entries[key := g]| <= |entries| + 1
  {
  }

  /** The stamps that were collected are the snapshot, and none has changed. */
  lemma Unchanged(f: Formats, d: Descriptor, before: Blobs, during: Blobs, layers: Blobs, after: Blobs, g: Graph)
    requires Timeline(before, during, layers, after) && d.media.IsImage()
    requires Collect(f, before, d, 0, {}).result.Ok? && Validate(f, during, d, 0, {}).result.Ok? && LayersOk(f, layers, d)
    requires g == Graph(map h | h in Collect(f, before, d, 0, {}).seen && h in before :: before[h].stamp, Validate(f, during, d, 0, {}).result.value)
    requires Fresh(after, g)
    ensures Verifies(f, before, d, g.size) && Validate(f, before, d, 0, {}) == Validate(f, during, d, 0, {})
    ensures g == Snapshot(f, before, d) && Stays(f, before, after, d)
    ensures forall written :: Honest(before, written) ==> Justifies(f, written, Origin(before, d), KeyOf(d), g)
  {
    CollectedFiles(f, before, d, 0, {});
    hide Validate, Collect, LayersOk;
    assert g.files.Keys == Collect(f, before, d, 0, {}).seen;
    Undisturbed(f, d, before, during, layers, after);
  }

  /** Collection reads only files that are there. */
  lemma {:induction false} CollectedFiles(f: Formats, st: Blobs, d: Descriptor, depth: nat, seen: set<Digest>)
    requires Collect(f, st, d, depth, seen).result.Ok?
    ensures forall h <- Collect(f, st, d, depth, seen).seen :: h in seen || h in st
    decreases MAX_DEPTH + 1 - depth, 1, 0
  {
    if d.digest !in seen {
      CollectedKidsFiles(f, st, Children(f, st, d).value, depth, seen + {d.digest});
    }
  }

  lemma {:induction false} CollectedKidsFiles(f: Formats, st: Blobs, kids: seq<Descriptor>, depth: nat, seen: set<Digest>)
    requires depth <= MAX_DEPTH && CollectKids(f, st, kids, depth, seen).result.Ok?
    ensures forall h <- CollectKids(f, st, kids, depth, seen).seen :: h in seen || h in st
    decreases MAX_DEPTH + 1 - depth, 0, |kids|
  {
    if kids != [] {
      CollectedFiles(f, st, kids[0], depth + 1, seen);
      CollectedKidsFiles(f, st, kids[1..], depth, Collect(f, st, kids[0], depth + 1, seen).seen);
    }
  }

  /** Collection, too, depends only on the files it marks. */
  lemma {:induction false} CollectLocal(f: Formats, st: Blobs, st': Blobs, d: Descriptor, depth: nat, seen: set<Digest>)
    requires Collect(f, st, d, depth, seen).result.Ok? && Agree(st, st', Collect(f, st, d, depth, seen).seen)
    ensures Collect(f, st', d, depth, seen) == Collect(f, st, d, depth, seen)
    decreases MAX_DEPTH + 1 - depth, 1, 0
  {
    if d.digest !in seen {
      CollectKidsLocal(f, st, st', Children(f, st, d).value, depth, seen + {d.digest});
    }
  }

  lemma {:induction false} CollectKidsLocal(f: Formats, st: Blobs, st': Blobs, kids: seq<Descriptor>, depth: nat, seen: set<Digest>)
    requires depth <= MAX_DEPTH && CollectKids(f, st, kids, depth, seen).result.Ok?
    requires Agree(st, st', CollectKids(f, st, kids, depth, seen).seen)
    ensures CollectKids(f, st', kids, depth, seen) == CollectKids(f, st, kids, depth, seen)
    decreases MAX_DEPTH + 1 - depth, 0, |kids|
  {
    if kids != [] {
      var first := Collect(f, st, kids[0], depth + 1, seen);
      CollectLocal(f, st, st', kids[0], depth + 1, seen);
      CollectKidsLocal(f, st, st', kids[1..], depth, first.seen);
    }
  }

  /** If the stamps before and after are the same, all three passes have looked at the same files. */
  lemma Undisturbed(f: Formats, d: Descriptor, before: Blobs, during: Blobs, layers: Blobs, after: Blobs)
    requires Timeline(before, during, layers, after) && d.media.IsImage()
    requires Collect(f, before, d, 0, {}).result.Ok? && Validate(f, during, d, 0, {}).result.Ok? && LayersOk(f, layers, d)
    requires forall h <- Collect(f, before, d, 0, {}).seen :: h in before && h in after && after[h].stamp == before[h].stamp
    ensures Verifies(f, before, d, Validate(f, during, d, 0, {}).result.value)
    ensures Validate(f, before, d, 0, {}) == Validate(f, during, d, 0, {})
    ensures Collect(f, before, d, 0, {}).seen == Validate(f, before, d, 0, {}).seen
  {
    hide LayersOk;
    var c := Collect(f, before, d, 0, {});
    assert Agree(before, during, c.seen) && Agree(before, layers, c.seen);
    CollectLocal(f, before, during, d, 0, {});
    ValidatedCollects(f, during, d, 0, {});
    assert Agree(during, before, c.seen) && Agree(during, layers, c.seen);
    ValidateLocal(f, during, before, d, 0, {});
    LayersLocal(f, before, layers, d);
  }

  /** An image that verifies and stays is accepted: every pass sees the files of the first. */
  lemma NothingStirs(f: Formats, d: Descriptor, before: Blobs, during: Blobs, layers: Blobs, after: Blobs)
    requires Timeline(before, during, layers, after) && Stays(f, before, after, d)
    ensures Collect(f, before, d, 0, {}).result.Ok? && Validate(f, during, d, 0, {}).result.Ok? && LayersOk(f, layers, d)
    ensures Fresh(after, Graph(map h | h in Collect(f, before, d, 0, {}).seen && h in before :: before[h].stamp,
                               Validate(f, during, d, 0, {}).result.value))
  {
    hide Validate, LayersOk, Collect;
    ValidatedCollects(f, before, d, 0, {});
    ValidatedIsThere(f, before, d);
    assert Agree(before, during, Validate(f, before, d, 0, {}).seen) && Agree(before, layers, Validate(f, before, d, 0, {}).seen);
    ValidateLocal(f, before, during, d, 0, {});
    LayersLocal(f, before, layers, d);
  }

  lemma ValidatedIsThere(f: Formats, st: Blobs, d: Descriptor)
    requires Validate(f, st, d, 0, {}).result.Ok?
    ensures forall h <- Validate(f, st, d, 0, {}).seen :: h in st
  {
    ValidatedAccounts(f, st, d, 0, {});
  }
}
