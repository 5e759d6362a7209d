/** internal/images/graph.go: the recursive walks over a content-addressed store. Digests may refer to each other in
    any way, also in cycles as far as the abstract hash allows it. JSON, SHA-256 and the layer decoders are
    functions that nothing is known about. */
module OciGraphs {
  import opened Prelude

  type Digest = nat
  type Bytes = seq<Byte>

  const MAX_ARCHIVE: nat := 20 * 1024 * 1024 * 1024
  const MAX_METADATA: nat := 16 * 1024 * 1024
  const MAX_DEPTH: nat := 16
  const MAX_BLOBS: nat := 100000

  datatype Platform = Platform(os: string, architecture: string, variant: string)

  datatype Media = OciIndex | DockerList | OciManifest | DockerManifest | Other(name: string)
  {
    predicate IsIndex() { OciIndex? || DockerList? }
    predicate IsImage() { OciManifest? || DockerManifest? }
  }

  datatype Descriptor = Descriptor(media: Media, digest: Digest, size: int, urls: seq<string>, data: Bytes,
                                   platform: Option<Platform>, refName: string)

  datatype Index = Index(schema: int, manifests: seq<Descriptor>)
  datatype Manifest = Manifest(schema: int, config: Descriptor, layers: seq<Descriptor>)
  datatype Config = Config(platform: Platform, rootfs: string, diffIds: seq<Digest>)
  datatype Compression = Gzip | Zstd | Plain | Unsupported

  datatype Formats = Formats(
    valid: Digest -> bool,                                  // blobPath accepts the digest
    hash: Bytes -> Digest,
    index: Bytes -> Option<Index>,
    manifest: Bytes -> Option<Manifest>,
    config: Bytes -> Option<Config>,
    compression: Media -> Compression,
    decode: (Compression, Bytes) -> Option<Bytes>)          // the expanded layer

  /** One blob file; stamp is what Lstat tells about its identity and times. */
  datatype File = File(bytes: Bytes, regular: bool, stamp: nat)
  type Blobs = map<Digest, File>

  /******* Reading *******/

  function ReadBlob(f: Formats, st: Blobs, d: Descriptor): Result<Bytes> {
    if d.size > MAX_METADATA || !f.valid(d.digest) then Err(Invalid)
    else if d.digest !in st then Err(NotFound)
    else
      var all := st[d.digest].bytes;
      var b := if |all| > MAX_METADATA + 1 then all[..MAX_METADATA + 1] else all;
      if |b| != d.size || f.hash(b) != d.digest then Err(Mismatch) else Ok(b)
  }

  function Children(f: Formats, st: Blobs, d: Descriptor): Result<seq<Descriptor>> {
    if d.media.IsIndex() then
      var b := ReadBlob(f, st, d);
      if b.Err? then Err(b.error)
      else match f.index(b.value)
        case None => Err(Invalid)
        case Some(m) => if m.schema != 2 then Err(Invalid) else Ok(m.manifests)
    else if d.media.IsImage() then
      var b := ReadBlob(f, st, d);
      if b.Err? then Err(b.error)
      else match f.manifest(b.value)
        case None => Err(Invalid)
        case Some(m) => if m.schema != 2 then Err(Invalid) else Ok([m.config] + m.layers)
    else Ok([])
  }

  /** What is read is the whole blob, of the size and the digest that the reference says. */
  lemma ReadBlobIff(f: Formats, st: Blobs, d: Descriptor, b: Bytes)
    ensures ReadBlob(f, st, d) == Ok(b) <==>
      f.valid(d.digest) && d.digest in st && b == st[d.digest].bytes && |b| == d.size <= MAX_METADATA && f.hash(b) == d.digest
  {
  }

  /** An index refers to its manifests, an image to its config and then its layers, and nothing else refers to anything. */
  lemma ChildrenIff(f: Formats, st: Blobs, d: Descriptor, kids: seq<Descriptor>)
    ensures Children(f, st, d) == Ok(kids) <==>
      if d.media.IsIndex() then exists b, m :: ReadBlob(f, st, d) == Ok(b) && f.index(b) == Some(m) && m.schema == 2 && kids == m.manifests
      else if d.media.IsImage() then
        exists b, m :: ReadBlob(f, st, d) == Ok(b) && f.manifest(b) == Some(m) && m.schema == 2 && kids == [m.config] + m.layers
      else kids == []
  {
    hide ReadBlob;
    var b := ReadBlob(f, st, d);
    if b.Ok? && d.media.IsIndex() && f.index(b.value).Some? {
      assert f.index(b.value) == Some(f.index(b.value).value);
    }
    if b.Ok? && d.media.IsImage() && f.manifest(b.value).Some? {
      assert f.manifest(b.value) == Some(f.manifest(b.value).value);
    }
  }

  /******* The walks *******/

  /** What a walk returns, the digests it has marked, and the descriptors under which it marked new ones. */
  datatype Visit = Visit(result: Result<int>, seen: set<Digest>, visits: seq<Descriptor>)

  /** The checks on a reference before its blob is looked at. */
  predicate Acceptable(f: Formats, d: Descriptor) {
    && d.media != Other("")
    && d.urls == []
    && (d.data == [] || (f.hash(d.data) == d.digest && |d.data| == d.size))
  }

  predicate HasFile(f: Formats, st: Blobs, d: Descriptor) {
    && f.valid(d.digest) && d.digest in st
    && st[d.digest].regular && 0 <= d.size <= MAX_ARCHIVE && |st[d.digest].bytes| == d.size
  }

  function Validate(f: Formats, st: Blobs, d: Descriptor, depth: nat, seen: set<Digest>): (v: Visit)
    ensures seen <= v.seen
    decreases MAX_DEPTH + 1 - depth, 1, 0
  {
    if !Acceptable(f, d) then Visit(Err(Invalid), seen, [])
    else if depth > MAX_DEPTH || |seen| > MAX_BLOBS then Visit(Err(Invalid), seen, [])
    else if !HasFile(f, st, d) then Visit(Err(Mismatch), seen, [])
    else if d.digest in seen then Visit(Ok(0), seen, [])
    else if f.hash(st[d.digest].bytes) != d.digest then Visit(Err(Mismatch), seen + {d.digest}, [d])
    else match Children(f, st, d)
      case Err(e) => Visit(Err(e), seen + {d.digest}, [d])
      case Ok(kids) =>
        var v := ValidateKids(f, st, kids, depth, seen + {d.digest}, d.size);
        v.(visits := [d] + v.visits)
  }

  function ValidateKids(f: Formats, st: Blobs, kids: seq<Descriptor>, depth: nat, seen: set<Digest>, total: int): (v: Visit)
    requires depth <= MAX_DEPTH
    ensures seen <= v.seen
    decreases MAX_DEPTH + 1 - depth, 0, |kids|
  {
    if kids == [] then Visit(Ok(total), seen, [])
    else
      var first := Validate(f, st, kids[0], depth + 1, seen);
      if first.result.Err? then first
      else if total + first.result.value > MAX_ARCHIVE then first.(result := Err(Invalid))
      else
        var rest := ValidateKids(f, st, kids[1..], depth, first.seen, total + first.result.value);
        rest.(visits := first.visits + rest.visits)
  }

  /** How many blobs a walk can still enter. */
  function Unmarked(st: Blobs, seen: set<Digest>): nat {
    |st.Keys - seen|
  }

  lemma Shrinks(st: Blobs, seen: set<Digest>, seen': set<Digest>)
    requires seen <= seen'
    ensures Unmarked(st, seen') <= Unmarked(st, seen)
  {
    var all := st.Keys;
    assert all - seen == (all - seen') + ((all - seen) - (all - seen'));
  }

  lemma Enters(st: Blobs, seen: set<Digest>, h: Digest)
    requires h in st && h !in seen
    ensures Unmarked(st, seen + {h}) < Unmarked(st, seen)
  {
    assert st.Keys - seen == (st.Keys - (seen + {h})) + {h};
  }

  lemma ParentIsRead(f: Formats, st: Blobs, d: Descriptor)
    ensures Children(f, st, d).Ok? && Children(f, st, d).value != [] ==> d.digest in st.Keys
  {
  }

  /** graphSize, and copyGraph, which also has to open every blob. There is no depth limit: the walk ends because
      every blob is entered once. */
  function Walk(f: Formats, st: Blobs, d: Descriptor, seen: set<Digest>, opens: bool): (v: Visit)
    ensures seen <= v.seen
    decreases Unmarked(st, seen), 0, 0
  {
    if d.digest in seen then Visit(Ok(0), seen, [])
    else if opens && !(f.valid(d.digest) && d.digest in st) then Visit(Err(NotFound), seen + {d.digest}, [])
    else match Children(f, st, d)
      case Err(e) => Visit(Err(e), seen + {d.digest}, [d])
      case Ok(kids) =>
        if kids == [] then Visit(Ok(d.size), seen + {d.digest}, [d])
        else
          ParentIsRead(f, st, d);
          Enters(st, seen, d.digest);
          var v := WalkKids(f, st, kids, seen + {d.digest}, opens, d.size);
          v.(visits := [d] + v.visits)
  }

  function WalkKids(f: Formats, st: Blobs, kids: seq<Descriptor>, seen: set<Digest>, opens: bool, total: int): (v: Visit)
    ensures seen <= v.seen
    decreases Unmarked(st, seen), 1, |kids|
  {
    if kids == [] then Visit(Ok(total), seen, [])
    else
      var first := Walk(f, st, kids[0], seen, opens);
      if first.result.Err? then first
      else
        Shrinks(st, seen, first.seen);
        var rest := WalkKids(f, st, kids[1..], first.seen, opens, total + first.result.value);
        rest.(visits := first.visits + rest.visits)
  }

  /** The collection of stamps before a verification. */
  function Collect(f: Formats, st: Blobs, d: Descriptor, depth: nat, seen: set<Digest>): (v: Visit)
    ensures seen <= v.seen
    decreases MAX_DEPTH + 1 - depth, 1, 0
  {
    if depth > MAX_DEPTH || |seen| > MAX_BLOBS || !f.valid(d.digest) then Visit(Err(Invalid), seen, [])
    else if d.digest in seen then Visit(Ok(0), seen, [])
    else if d.digest !in st || !st[d.digest].regular then Visit(Err(NotFound), seen, [])
    else match Children(f, st, d)
      case Err(e) => Visit(Err(e), seen + {d.digest}, [d])
      case Ok(kids) =>
        var v := CollectKids(f, st, kids, depth, seen + {d.digest});
        v.(visits := [d] + v.visits)
  }

  function CollectKids(f: Formats, st: Blobs, kids: seq<Descriptor>, depth: nat, seen: set<Digest>): (v: Visit)
    requires depth <= MAX_DEPTH
    ensures seen <= v.seen
    decreases MAX_DEPTH + 1 - depth, 0, |kids|
  {
    if kids == [] then Visit(Ok(0), seen, [])
    else
      var first := Collect(f, st, kids[0], depth + 1, seen);
      if first.result.Err? then first
      else
        var rest := CollectKids(f, st, kids[1..], depth, first.seen);
        rest.(visits := first.visits + rest.visits)
  }

  /******* One validated graph: all walks visit the same blobs *******/

  function Digests(visits: seq<Descriptor>): set<Digest> {
    set v | v in visits :: v.digest
  }

  function Total(visits: seq<Descriptor>): int {
    if visits == [] then 0 else visits[0].size + Total(visits[1..])
  }

  lemma {:induction false} TotalConcat(a: seq<Descriptor>, b: seq<Descriptor>)
    ensures Total(a + b) == Total(a) + Total(b)
  {
    if a == [] {
      assert a + b == b;
    } else {
      TotalConcat(a[1..], b);
      assert (a + b)[1..] == a[1..] + b;
    }
  }

  /** The size of a validated graph is the total size of the distinct blobs that it marked. */
  lemma {:induction false} ValidatedWalks(f: Formats, st: Blobs, d: Descriptor, depth: nat, seen: set<Digest>, opens: bool)
    requires Validate(f, st, d, depth, seen).result.Ok?
    ensures Walk(f, st, d, seen, opens) == Validate(f, st, d, depth, seen)
    decreases MAX_DEPTH + 1 - depth, 1, 0
  {
    if d.digest !in seen {
      ValidatedWalksKids(f, st, Children(f, st, d).value, depth, seen + {d.digest}, d.size, opens);
    }
  }

  lemma {:induction false} ValidatedWalksKids(f: Formats, st: Blobs, kids: seq<Descriptor>, depth: nat, seen: set<Digest>, total: int, opens: bool)
    requires depth <= MAX_DEPTH && ValidateKids(f, st, kids, depth, seen, total).result.Ok?
    ensures WalkKids(f, st, kids, seen, opens, total) == ValidateKids(f, st, kids, depth, seen, total)
    decreases MAX_DEPTH + 1 - depth, 0, |kids|
  {
    if kids != [] {
      ValidatedWalks(f, st, kids[0], depth + 1, seen, opens);
      var first := Validate(f, st, kids[0], depth + 1, seen);
      ValidatedWalksKids(f, st, kids[1..], depth, first.seen, total + first.result.value, opens);
    }
  }

  lemma {:induction false} ValidatedCollects(f: Formats, st: Blobs, d: Descriptor, depth: nat, seen: set<Digest>)
    requires Validate(f, st, d, depth, seen).result.Ok?
    ensures var c, v := Collect(f, st, d, depth, seen), Validate(f, st, d, depth, seen);
      c.result.Ok? && c.seen == v.seen && c.visits == v.visits
    decreases MAX_DEPTH + 1 - depth, 1, 0
  {
    if d.digest !in seen {
      ValidatedCollectsKids(f, st, Children(f, st, d).value, depth, seen + {d.digest}, d.size);
    }
  }

  lemma {:induction false} ValidatedCollectsKids(f: Formats, st: Blobs, kids: seq<Descriptor>, depth: nat, seen: set<Digest>, total: int)
    requires depth <= MAX_DEPTH && ValidateKids(f, st, kids, depth, seen, total).result.Ok?
    ensures var c, v := CollectKids(f, st, kids, depth, seen), ValidateKids(f, st, kids, depth, seen, total);
      c.result.Ok? && c.seen == v.seen && c.visits == v.visits
    decreases MAX_DEPTH + 1 - depth, 0, |kids|
  {
    if kids != [] {
      ValidatedCollects(f, st, kids[0], depth + 1, seen);
      var first := Validate(f, st, kids[0], depth + 1, seen);
      ValidatedCollectsKids(f, st, kids[1..], depth, first.seen, total + first.result.value);
    }
  }

  /** A blob that a validation entered: its file hashes to its digest and has the size that was said. */
  predicate Sound(f: Formats, st: Blobs, v: Descriptor) {
    Acceptable(f, v) && HasFile(f, st, v) && f.hash(st[v.digest].bytes) == v.digest && Children(f, st, v).Ok?
  }

  /** The new visits are sound, each of another digest, and account for everything that was marked and counted. */
  ghost predicate Accounts(f: Formats, st: Blobs, seen: set<Digest>, v: Visit, base: int) {
    && v.result.Ok? && v.seen == seen + Digests(v.visits) && Digests(v.visits) !! seen
    && (forall i, j | 0 <= i < j < |v.visits| :: v.visits[i].digest != v.visits[j].digest)
    && (forall x <- v.visits :: Sound(f, st, x))
    && v.result.value == base + Total(v.visits)
  }

  lemma {:induction false} ValidatedAccounts(f: Formats, st: Blobs, d: Descriptor, depth: nat, seen: set<Digest>)
    requires Validate(f, st, d, depth, seen).result.Ok?
    ensures Accounts(f, st, seen, Validate(f, st, d, depth, seen), 0)
    ensures d.digest in Validate(f, st, d, depth, seen).seen && Validate(f, st, d, depth, seen).result.value <= MAX_ARCHIVE
    decreases MAX_DEPTH + 1 - depth, 1, 0
  {
    hide Accounts, Children, Digests, Total;
    if d.digest in seen {
      AccountsNothing(f, st, seen, 0);
    } else {
      var kids := Children(f, st, d).value;
      ValidatedAccountsKids(f, st, kids, depth, seen + {d.digest}, d.size);
      AccountsEnter(f, st, seen, d, ValidateKids(f, st, kids, depth, seen + {d.digest}, d.size));
    }
  }

  /** What a validation has entered, blob by blob: its file is there, regular, and has the size and the digest that the
      reference says; the reference has a media type and no external URL, and what it embeds is the blob. */
  lemma ValidatedMeans(f: Formats, st: Blobs, d: Descriptor, x: Descriptor)
    requires Validate(f, st, d, 0, {}).result.Ok? && x in Validate(f, st, d, 0, {}).visits
    ensures f.valid(x.digest) && x.digest in st && st[x.digest].regular
    ensures |st[x.digest].bytes| == x.size <= MAX_ARCHIVE && f.hash(st[x.digest].bytes) == x.digest
    ensures x.media != Other("") && x.urls == [] && (x.data == [] || (f.hash(x.data) == x.digest && |x.data| == x.size))
    ensures Children(f, st, x).Ok?
  {
    ValidatedAccounts(f, st, d, 0, {});
    hide Validate;
  }

  lemma AccountsNothing(f: Formats, st: Blobs, seen: set<Digest>, total: int)
    ensures Accounts(f, st, seen, Visit(Ok(total), seen, []), total)
  {
  }

  lemma AccountsEnter(f: Formats, st: Blobs, seen: set<Digest>, d: Descriptor, v: Visit)
    requires d.digest !in seen && Sound(f, st, d) && Accounts(f, st, seen + {d.digest}, v, d.size)
    ensures Accounts(f, st, seen, v.(visits := [d] + v.visits), 0)
  {
  }

  lemma {:induction false} ValidatedAccountsKids(f: Formats, st: Blobs, kids: seq<Descriptor>, depth: nat, seen: set<Digest>, total: int)
    requires depth <= MAX_DEPTH && ValidateKids(f, st, kids, depth, seen, total).result.Ok?
    ensures Accounts(f, st, seen, ValidateKids(f, st, kids, depth, seen, total), total)
    ensures forall k <- kids :: k.digest in ValidateKids(f, st, kids, depth, seen, total).seen
    ensures total <= MAX_ARCHIVE ==> ValidateKids(f, st, kids, depth, seen, total).result.value <= MAX_ARCHIVE
    decreases MAX_DEPTH + 1 - depth, 0, |kids|
  {
    hide Accounts, Children, Digests, Total, Validate;
    if kids == [] {
      AccountsNothing(f, st, seen, total);
    } else {
      var first := Validate(f, st, kids[0], depth + 1, seen);
      var rest := ValidateKids(f, st, kids[1..], depth, first.seen, total + first.result.value);
      ValidatedAccounts(f, st, kids[0], depth + 1, seen);
      ValidatedAccountsKids(f, st, kids[1..], depth, first.seen, total + first.result.value);
      AccountsConcat(f, st, seen, first, rest, total);
    }
  }

  lemma AccountsConcat(f: Formats, st: Blobs, seen: set<Digest>, first: Visit, rest: Visit, total: int)
    requires Accounts(f, st, seen, first, 0) && Accounts(f, st, first.seen, rest, total + first.result.value)
    ensures Accounts(f, st, seen, rest.(visits := first.visits + rest.visits), total)
  {
    var all := first.visits + rest.visits;
    TotalConcat(first.visits, rest.visits);
    assert Digests(all) == Digests(first.visits) + Digests(rest.visits);
    forall i, j | 0 <= i < j < |all| ensures all[i].digest != all[j].digest {
      if i < |first.visits| <= j {
        assert first.visits[i].digest in Digests(first.visits);
        assert rest.visits[j - |first.visits|].digest in Digests(rest.visits);
      }
    }
  }

  /** The main result about one graph: if it validates, its size is the total of the distinct blobs, within the
      budget; sizing, collecting and copying it succeed, visit the same blobs in the same order, and give the size. */
  lemma OneGraph(f: Formats, st: Blobs, d: Descriptor)
    requires Validate(f, st, d, 0, {}).result.Ok?
    ensures var v := Validate(f, st, d, 0, {});
      && v.result == Ok(Total(v.visits)) && Total(v.visits) <= MAX_ARCHIVE
      && v.seen == Digests(v.visits)
      && (forall i, j | 0 <= i < j < |v.visits| :: v.visits[i].digest != v.visits[j].digest)
      && (forall x <- v.visits :: Sound(f, st, x))
      && Walk(f, st, d, {}, false) == v && Walk(f, st, d, {}, true) == v
      && Collect(f, st, d, 0, {}).result.Ok? && Collect(f, st, d, 0, {}).seen == v.seen && Collect(f, st, d, 0, {}).visits == v.visits
  {
    ValidatedAccounts(f, st, d, 0, {});
    ValidatedWalks(f, st, d, 0, {}, false);
    ValidatedWalks(f, st, d, 0, {}, true);
    ValidatedCollects(f, st, d, 0, {});
  }

  /******* Locality *******/

  /** The marked files are the same in both stores. */
  ghost predicate Agree(st: Blobs, st': Blobs, seen: set<Digest>) {
    forall h <- seen :: h in st && h in st' && st'[h].bytes == st[h].bytes && st'[h].regular == st[h].regular
  }

  /** A successful validation depends on the files it marked, and on nothing else in the store. */
  lemma {:induction false} ValidateLocal(f: Formats, st: Blobs, st': Blobs, d: Descriptor, depth: nat, seen: set<Digest>)
    requires Validate(f, st, d, depth, seen).result.Ok? && Agree(st, st', Validate(f, st, d, depth, seen).seen)
    ensures Validate(f, st', d, depth, seen) == Validate(f, st, d, depth, seen)
    decreases MAX_DEPTH + 1 - depth, 1, 0
  {
    if d.digest !in seen {
      ValidateKidsLocal(f, st, st', Children(f, st, d).value, depth, seen + {d.digest}, d.size);
    }
  }

  lemma {:induction false} ValidateKidsLocal(f: Formats, st: Blobs, st': Blobs, kids: seq<Descriptor>, depth: nat, seen: set<Digest>, total: int)
    requires depth <= MAX_DEPTH && ValidateKids(f, st, kids, depth, seen, total).result.Ok?
    requires Agree(st, st', ValidateKids(f, st, kids, depth, seen, total).seen)
    ensures ValidateKids(f, st', kids, depth, seen, total) == ValidateKids(f, st, kids, depth, seen, total)
    decreases MAX_DEPTH + 1 - depth, 0, |kids|
  {
    hide Validate;
    if kids != [] {
      var first := Validate(f, st, kids[0], depth + 1, seen);
      ValidateLocal(f, st, st', kids[0], depth + 1, seen);
      ValidateKidsLocal(f, st, st', kids[1..], depth, first.seen, total + first.result.value);
    }
  }

  /******* Completeness *******/

  predicate IsChild(f: Formats, st: Blobs, e: Descriptor, d: Descriptor) {
    Children(f, st, d).Ok? && e in Children(f, st, d).value
  }

  ghost predicate Path(f: Formats, st: Blobs, path: seq<Descriptor>) {
    path != [] && forall i | 0 < i < |path| :: IsChild(f, st, path[i], path[i - 1])
  }

  ghost predicate Reachable(f: Formats, st: Blobs, d: Descriptor, e: Descriptor) {
    exists path :: Path(f, st, path) && path[0] == d && path[|path| - 1] == e
  }

  lemma ReachNext(f: Formats, st: Blobs, d: Descriptor, kid: Descriptor, e: Descriptor)
    requires IsChild(f, st, kid, d) && Reachable(f, st, kid, e)
    ensures Reachable(f, st, d, e)
  {
    var path :| Path(f, st, path) && path[0] == kid && path[|path| - 1] == e;
    var longer := [d] + path;
    assert Path(f, st, longer) && longer[0] == d && longer[|longer| - 1] == e;
  }

  lemma ReachSelf(f: Formats, st: Blobs, d: Descriptor)
    ensures Reachable(f, st, d, d)
  {
    assert Path(f, st, [d]);
  }

  /** Everything that a validation marks is reachable, and every child of what it entered is marked. */
  ghost predicate Explores(f: Formats, st: Blobs, visits: seq<Descriptor>, seen: set<Digest>) {
    forall v <- visits :: forall k | IsChild(f, st, k, v) :: k.digest in seen
  }

  lemma {:induction false} ValidatedExplores(f: Formats, st: Blobs, d: Descriptor, depth: nat, seen: set<Digest>)
    requires Validate(f, st, d, depth, seen).result.Ok?
    ensures Explores(f, st, Validate(f, st, d, depth, seen).visits, Validate(f, st, d, depth, seen).seen)
    ensures forall v <- Validate(f, st, d, depth, seen).visits :: Reachable(f, st, d, v)
    decreases MAX_DEPTH + 1 - depth, 1, 0
  {
    if d.digest !in seen {
      var kids := Children(f, st, d).value;
      hide Reachable, Accounts, Explores, Acceptable, HasFile;
      ValidatedExploresKids(f, st, kids, depth, seen + {d.digest}, d.size);
      ValidatedAccountsKids(f, st, kids, depth, seen + {d.digest}, d.size);
      var v := ValidateKids(f, st, kids, depth, seen + {d.digest}, d.size);
      assert Validate(f, st, d, depth, seen) == v.(visits := [d] + v.visits);
      hide Validate, ValidateKids;
      ExploresEnter(f, st, d, v);
      ReachSelf(f, st, d);
      forall x, k | k in kids && Reachable(f, st, k, x) ensures Reachable(f, st, d, x) {
        ReachNext(f, st, d, k, x);
      }
    }
  }

  lemma ExploresEnter(f: Formats, st: Blobs, d: Descriptor, v: Visit)
    requires Explores(f, st, v.visits, v.seen) && Children(f, st, d).Ok? && forall k <- Children(f, st, d).value :: k.digest in v.seen
    ensures Explores(f, st, [d] + v.visits, v.seen)
  {
    hide Children;
  }

  lemma {:induction false} ValidatedExploresKids(f: Formats, st: Blobs, kids: seq<Descriptor>, depth: nat, seen: set<Digest>, total: int)
    requires depth <= MAX_DEPTH && ValidateKids(f, st, kids, depth, seen, total).result.Ok?
    ensures var v := ValidateKids(f, st, kids, depth, seen, total);
      && Explores(f, st, v.visits, v.seen)
      && forall x <- v.visits :: exists k :: k in kids && Reachable(f, st, k, x)
    decreases MAX_DEPTH + 1 - depth, 0, |kids|
  {
    hide Reachable, Children, Validate;
    if kids != [] {
      var first := Validate(f, st, kids[0], depth + 1, seen);
      var rest := ValidateKids(f, st, kids[1..], depth, first.seen, total + first.result.value);
      ValidatedExplores(f, st, kids[0], depth + 1, seen);
      ValidatedExploresKids(f, st, kids[1..], depth, first.seen, total + first.result.value);
      forall x | x in first.visits + rest.visits ensures exists k :: k in kids && Reachable(f, st, k, x) {
        if x in first.visits {
          assert kids[0] in kids;
        } else {
          var k :| k in kids[1..] && Reachable(f, st, k, x);
          assert k in kids;
        }
      }
    }
  }

  /** The reference e was entered as what it is: some visit marked its digest and went into the same children. */
  ghost predicate Entered(f: Formats, st: Blobs, visits: seq<Descriptor>, e: Descriptor) {
    exists v :: v in visits && v.digest == e.digest && Children(f, st, v) == Children(f, st, e)
  }

  /** Every reference of the graph was entered. */
  ghost predicate Complete(f: Formats, st: Blobs, d: Descriptor, visits: seq<Descriptor>) {
    forall e | Reachable(f, st, d, e) :: Entered(f, st, visits, e)
  }

  /** No digest is referenced as two different things. */
  ghost predicate Consistent(f: Formats, st: Blobs, d: Descriptor) {
    forall a, b | Reachable(f, st, d, a) && Reachable(f, st, d, b) && a.digest == b.digest :: Children(f, st, a) == Children(f, st, b)
  }

  /** Blobs are marked by digest alone, so a successful validation is complete exactly when the graph is consistent. */
  lemma CompleteIffConsistent(f: Formats, st: Blobs, d: Descriptor)
    requires Validate(f, st, d, 0, {}).result.Ok?
    ensures Complete(f, st, d, Validate(f, st, d, 0, {}).visits) <==> Consistent(f, st, d)
  {
    var v := Validate(f, st, d, 0, {});
    ValidatedExplores(f, st, d, 0, {});
    ValidatedAccounts(f, st, d, 0, {});
    hide Validate, Sound, Explores, Consistent, Complete;
    if Consistent(f, st, d) {
      ConsistentIsComplete(f, st, d, v);
    }
    if Complete(f, st, d, v.visits) {
      CompleteIsConsistent(f, st, d, v.visits);
    }
  }

  lemma ConsistentIsComplete(f: Formats, st: Blobs, d: Descriptor, v: Visit)
    requires Consistent(f, st, d) && Explores(f, st, v.visits, v.seen) && v.seen == Digests(v.visits) && d.digest in v.seen
    requires forall x <- v.visits :: Reachable(f, st, d, x)
    ensures Complete(f, st, d, v.visits)
  {
    hide Explores, Consistent, Entered;
    forall e | Reachable(f, st, d, e) ensures Entered(f, st, v.visits, e) {
      var path :| Path(f, st, path) && path[0] == d && path[|path| - 1] == e;
      PathEntered(f, st, d, v, path);
    }
  }

  lemma CompleteIsConsistent(f: Formats, st: Blobs, d: Descriptor, visits: seq<Descriptor>)
    requires Complete(f, st, d, visits)
    requires forall i, j | 0 <= i < j < |visits| :: visits[i].digest != visits[j].digest
    ensures Consistent(f, st, d)
  {
  }

  lemma {:induction false} PathEntered(f: Formats, st: Blobs, d: Descriptor, v: Visit, path: seq<Descriptor>)
    requires Consistent(f, st, d) && Path(f, st, path) && path[0] == d
    requires v.seen == Digests(v.visits) && d.digest in v.seen && Explores(f, st, v.visits, v.seen)
    requires forall x <- v.visits :: Reachable(f, st, d, x)
    ensures Entered(f, st, v.visits, path[|path| - 1])
  {
    hide Children;
    var e := path[|path| - 1];
    assert Reachable(f, st, d, e);
    if |path| > 1 {
      var p := path[|path| - 2];
      PathEntered(f, st, d, v, path[..|path| - 1]);
      var x :| x in v.visits && x.digest == p.digest && Children(f, st, x) == Children(f, st, p);
      assert IsChild(f, st, e, path[|path| - 2]);
      assert IsChild(f, st, e, x);
    }
    assert e.digest in v.seen;
    var y :| y in v.visits && y.digest == e.digest;
  }

  /** What a publisher can check: whoever refers to a digest says the same kind and size. */
  lemma SameKindIsConsistent(f: Formats, st: Blobs, d: Descriptor)
    requires forall a, b | Reachable(f, st, d, a) && Reachable(f, st, d, b) && a.digest == b.digest ::
      a.size == b.size && a.media.IsIndex() == b.media.IsIndex() && a.media.IsImage() == b.media.IsImage()
    ensures Consistent(f, st, d)
  {
  }

  /** It happens: an index refers to the same digest first as a plain blob and then as a manifest, whose missing
      config is never looked for. */
  function Twice(): (Formats, Blobs, Descriptor, Descriptor) {
    var blob := Descriptor(Other("text/plain"), 2, 1, [], [], None, "");
    var config := Descriptor(Other("application/vnd.oci.image.config.v1+json"), 3, 1, [], [], None, "");
    var f := Formats(
      h => true, (b: Bytes) => if |b| == 1 then b[0] else 0,
      (b: Bytes) => Some(Index(2, [blob, blob.(media := OciManifest)])),
      (b: Bytes) => Some(Manifest(2, config, [])),
      (b: Bytes) => None, m => Plain, (c: Compression, b: Bytes) => Some(b));
    (f, map[1 := File([1], true, 0), 2 := File([2], true, 0)], Descriptor(OciIndex, 1, 1, [], [], None, ""), config)
  }

  lemma ValidationMayBeIncomplete()
    ensures var (f, st, d, config) := Twice();
      && Validate(f, st, d, 0, {}).result == Ok(2)
      && Reachable(f, st, d, config) && config.digest !in st && !Complete(f, st, d, Validate(f, st, d, 0, {}).visits)
  {
    var (f, st, d, config) := Twice();
    TwiceValidates();
    TwiceReaches();
    hide Validate, Reachable, Children;
    var visits := Validate(f, st, d, 0, {}).visits;
    assert forall v <- visits :: v.digest != config.digest;
    assert !Entered(f, st, visits, config);
  }

  lemma TwiceValidates()
    ensures var (f, st, d, config) := Twice();
      && Children(f, st, d).Ok? && |Children(f, st, d).value| == 2 && Children(f, st, d).value[0].digest == 2
      && Validate(f, st, d, 0, {}) == Visit(Ok(2), {1, 2}, [d, Children(f, st, d).value[0]])
  {
    var (f, st, d, config) := Twice();
    var kids := Children(f, st, d).value;
    TwiceKids(kids[0], kids[1]);
    hide Children;
    assert Validate(f, st, d, 0, {}) ==
      var v := ValidateKids(f, st, kids, 0, {1}, 1); v.(visits := [d] + v.visits);
    hide Validate;
    TwoKids(f, st, kids, Visit(Ok(1), {1, 2}, [kids[0]]), Visit(Ok(0), {1, 2}, []));
  }

  lemma TwiceKids(blob: Descriptor, manifest: Descriptor)
    requires var (f, st, d, config) := Twice(); Children(f, st, d) == Ok([blob, manifest])
    ensures var (f, st, d, config) := Twice();
      && Validate(f, st, blob, 1, {1}) == Visit(Ok(1), {1, 2}, [blob])
      && Validate(f, st, manifest, 1, {1, 2}) == Visit(Ok(0), {1, 2}, [])
  {
  }

  lemma TwoKids(f: Formats, st: Blobs, kids: seq<Descriptor>, first: Visit, second: Visit)
    requires |kids| == 2 && first.result == Ok(1) && second.result == Ok(0)
    requires Validate(f, st, kids[0], 1, {1}) == first && Validate(f, st, kids[1], 1, first.seen) == second
    ensures ValidateKids(f, st, kids, 0, {1}, 1) == Visit(Ok(2), second.seen, first.visits + second.visits)
  {
    hide Validate;
    assert kids[1..][0] == kids[1] && kids[1..][1..] == [];
    assert ValidateKids(f, st, [], 0, second.seen, 2) == Visit(Ok(2), second.seen, []);
    assert second.visits + [] == second.visits;
  }

  lemma TwiceReaches()
    ensures var (f, st, d, config) := Twice(); Reachable(f, st, d, config)
  {
    var (f, st, d, config) := Twice();
    var manifest := Children(f, st, d).value[1];
    assert Children(f, st, manifest).value[0] == config;
    hide Children;
    var path := [d, manifest, config];
    assert Path(f, st, path) && path[0] == d && path[|path| - 1] == config;
  }
}
