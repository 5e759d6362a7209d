/** internal/images/archive.go: an OCI layout as a tar archive, written and read. */
module OciArchives {
  import opened Prelude
  import opened OciGraphs
  import opened OciLayers
  import opened OciWalks
  import opened PlatformSelection
  import C = Catalogs

  const MAX_ENTRIES: nat := 100000

  /** The members of an archive. JSON and tar keep what is written: an index is read back as it was. */
  datatype Member =
    | Directory
    | LayoutFile(version: string, size: nat)
    | IndexFile(index: Index, size: nat)
    | BlobFile(digest: Digest, bytes: Bytes)
    | Unexpected(name: string)   // a link, or a path that is not allowed

  /** The name that must not occur twice. */
  datatype Name = LayoutName | IndexName | BlobName(digest: Digest)

  function NameOf(m: Member): Option<Name> {
    match m
    case LayoutFile(_, _) => Some(LayoutName)
    case IndexFile(_, _) => Some(IndexName)
    case BlobFile(h, _) => Some(BlobName(h))
    case _ => None
  }

  function ContentSize(m: Member): nat {
    match m
    case LayoutFile(_, size) => size
    case IndexFile(_, size) => size
    case BlobFile(_, bytes) => |bytes|
    case _ => 0
  }

  /** n bytes take whole blocks. */
  function Padded(n: nat): (p: nat)
    ensures n <= p < n + 512 && p % 512 == 0
  {
    (n + 511) / 512 * 512
  }

  /** A header block, and the content in whole blocks. */
  function TarSize(members: seq<Member>): nat {
    if members == [] then 0
    else TarSize(members[..|members| - 1]) + 512 + Padded(ContentSize(members[|members| - 1]))
  }

  /******* Export *******/

  /** References: parsing to the canonical name, the digest that a reference pins, and pinning one. */
  datatype References = References(normal: string -> Option<string>, pinned: string -> Option<Digest>,
                                   pin: (string, Digest) -> string, bare: string -> bool, exported: Digest -> string)

  /** The name of a reference is canonical and pins what the reference pins; pinning does what it says. */
  ghost predicate Lawful(refs: References) {
    && (forall x :: refs.normal(x).Some? ==>
          refs.normal(refs.normal(x).value) == refs.normal(x) && refs.pinned(refs.normal(x).value) == refs.pinned(x))
    && (forall x, h: Digest :: refs.normal(x).Some? ==> refs.normal(refs.pin(x, h)).Some? && refs.pinned(refs.pin(x, h)) == Some(h))
    && (forall x, h: Digest :: refs.pin(x, h) != "")
    && refs.normal("").None?
  }

  /** The annotation of the archive root: a digest reference is pinned to the root that is exported. */
  function Annotation(refs: References, ref: string, root: Digest): Option<string> {
    var name := if refs.bare(ref) then refs.exported(root) else ref;
    if refs.normal(name).None? then None
    else if refs.pinned(name).Some? then Some(refs.pin(name, root)) else Some(name)
  }

  function BlobMembers(st: Blobs, visits: seq<Descriptor>): (members: seq<Member>)
    ensures |members| == |visits|
  {
    seq(|visits|, i requires 0 <= i < |visits| =>
      BlobFile(visits[i].digest, if visits[i].digest in st then st[visits[i].digest].bytes else []))
  }

  /** A digest is exported under the name for its digest, a reference that pins a digest pins the exported root, and any
      other reference is kept. */
  lemma AnnotationIs(refs: References, ref: string, root: Digest)
    ensures !refs.bare(ref) && refs.normal(ref).Some? && refs.pinned(ref).None? ==> Annotation(refs, ref, root) == Some(ref)
    ensures !refs.bare(ref) && refs.normal(ref).Some? && refs.pinned(ref).Some? ==> Annotation(refs, ref, root) == Some(refs.pin(ref, root))
    ensures refs.bare(ref) && refs.normal(refs.exported(root)).Some? ==>
      Annotation(refs, ref, root) in {Some(refs.exported(root)), Some(refs.pin(refs.exported(root), root))}
    ensures refs.normal(if refs.bare(ref) then refs.exported(root) else ref).None? <==> Annotation(refs, ref, root).None?
  {
  }

  /** exportDescriptor. The index size is what its JSON takes. */
  method Export(f: Formats, refs: References, st: Blobs, root: Descriptor, ref: string, indexSize: nat) returns (r: Result<seq<Member>>)
    ensures r.Ok? <==> Validate(f, st, root, 0, {}).result.Ok? && Annotation(refs, ref, root.digest).Some?
    ensures r.Ok? ==> r.value == Exported(f, refs, st, root, ref, indexSize)
  {
    hide Validate, Walk;
    var validator := new Walker(f, st);
    var valid := validator.ValidateGraph(root, 0);
    if valid.Err? {
      return Err(valid.error);
    }
    OneGraph(f, st, root);
    var annotation := Annotation(refs, ref, root.digest);
    if annotation.None? {
      return Err(Invalid);
    }
    var walker := new Walker(f, st);
    var copied := walker.CopyGraph(root);
    if copied.Err? {
      return Err(NotFound);
    }
    return Ok(Head(root, annotation.value, indexSize) + BlobMembers(st, walker.written));
  }

  function Head(root: Descriptor, annotation: string, indexSize: nat): seq<Member> {
    [LayoutFile("1.0.0", 30), IndexFile(Index(2, [root.(refName := annotation)]), indexSize)]
  }

  function Exported(f: Formats, refs: References, st: Blobs, root: Descriptor, ref: string, indexSize: nat): seq<Member>
    requires Annotation(refs, ref, root.digest).Some?
  {
    Head(root, Annotation(refs, ref, root.digest).value, indexSize) + BlobMembers(st, Validate(f, st, root, 0, {}).visits)
  }

  /******* Import *******/

  /** What has been read so far. */
  datatype Stage = Stage(names: set<Name>, layoutOk: bool, index: Index, blobs: Blobs)

  const NOTHING := Stage({}, false, Index(0, []), map[])

  /** One member is read. */
  function Read(f: Formats, stage: Stage, m: Member): Result<Stage> {
    if m.Directory? then Ok(stage)
    else if m.Unexpected? || NameOf(m).value in stage.names then Err(Invalid)
    else
      var s := stage.(names := stage.names + {NameOf(m).value});
      match m
      case LayoutFile(version, size) => if size > MAX_METADATA then Err(Invalid) else Ok(s.(layoutOk := version == "1.0.0"))
      case IndexFile(index, size) => if size > MAX_METADATA then Err(Invalid) else Ok(s.(index := index))
      case BlobFile(h, bytes) =>
        if !f.valid(h) || |bytes| > MAX_ARCHIVE || f.hash(bytes) != h then Err(Invalid)
        else Ok(s.(blobs := s.blobs[h := File(bytes, true, 0)]))
      case _ => Err(Invalid)
  }

  function ReadAll(f: Formats, members: seq<Member>): Result<Stage> {
    if members == [] then Ok(NOTHING)
    else
      var s := ReadAll(f, members[..|members| - 1]);
      if s.Err? then s
      else if TarSize(members[..|members| - 1]) + 512 > MAX_ARCHIVE then Err(Invalid)
      else Read(f, s.value, members[|members| - 1])
  }

  lemma ReadNext(f: Formats, some: seq<Member>, m: Member)
    ensures ReadAll(f, some + [m]) ==
      if ReadAll(f, some).Err? then ReadAll(f, some)
      else if TarSize(some) + 512 > MAX_ARCHIVE then Err(Invalid)
      else Read(f, ReadAll(f, some).value, m)
  {
    hide Read, TarSize;
    assert (some + [m])[..|some|] == some;
  }

  lemma TarSizeNext(some: seq<Member>, m: Member)
    ensures TarSize(some + [m]) == TarSize(some) + 512 + Padded(ContentSize(m))
  {
    assert (some + [m])[..|some|] == some;
  }

  /** One member by itself is as it has to be: nothing but the expected files and directories, metadata within its
      limit, and blobs that hash to their names. */
  predicate Proper(f: Formats, m: Member) {
    match m
    case Directory => true
    case LayoutFile(_, size) => size <= MAX_METADATA
    case IndexFile(_, size) => size <= MAX_METADATA
    case BlobFile(h, bytes) => f.valid(h) && |bytes| <= MAX_ARCHIVE && f.hash(bytes) == h
    case Unexpected(_) => false
  }

  /** No two members have the same name. */
  ghost predicate Distinct(members: seq<Member>) {
    forall i, j | 0 <= i < j < |members| && NameOf(members[i]).Some? :: NameOf(members[i]) != NameOf(members[j])
  }

  /** Every header is found within the size limit. */
  ghost predicate FitsSize(members: seq<Member>) {
    forall i | 0 <= i < |members| :: TarSize(members[..i]) + 512 <= MAX_ARCHIVE
  }

  /** What an accepted archive holds: exactly its blob members, its index, and whether its layout file is right. */
  ghost predicate Holds(members: seq<Member>, s: Stage) {
    && (forall n :: n in s.names <==> exists m :: m in members && NameOf(m) == Some(n))
    && (forall h <- s.blobs :: s.blobs[h].regular && s.blobs[h].stamp == 0 && BlobFile(h, s.blobs[h].bytes) in members)
    && (forall m <- members :: m.BlobFile? ==> m.digest in s.blobs && s.blobs[m.digest].bytes == m.bytes)
    && (forall m <- members :: m.IndexFile? ==> m.index == s.index)
    && ((forall m <- members :: !m.IndexFile?) ==> s.index == Index(0, []))
    && (s.layoutOk <==> exists m :: m in members && m.LayoutFile? && m.version == "1.0.0")
  }

  /** Reading one member after the other accepts exactly the archives of proper, distinct members. */
  lemma {:induction false} ReadAllIff(f: Formats, members: seq<Member>)
    ensures ReadAll(f, members).Ok? <==> (forall m <- members :: Proper(f, m)) && Distinct(members) && FitsSize(members)
    ensures ReadAll(f, members).Ok? ==> Holds(members, ReadAll(f, members).value)
  {
    hide Proper, TarSize, Distinct, FitsSize, Holds, Read;
    if members == [] {
      NothingHeld();
    } else {
      var some, m := members[..|members| - 1], members[|members| - 1];
      assert members == some + [m];
      ReadAllIff(f, some);
      FitsSizeNext(some, m);
      DistinctNext(some, m);
      ProperNext(f, some, m);
      if ReadAll(f, some).Ok? {
        HoldsNext(f, some, ReadAll(f, some).value, m);
      }
    }
  }

  lemma NothingHeld()
    ensures Holds([], NOTHING) && Distinct([]) && FitsSize([])
  {
  }

  lemma FitsSizeNext(some: seq<Member>, m: Member)
    ensures FitsSize(some + [m]) <==> FitsSize(some) && TarSize(some) + 512 <= MAX_ARCHIVE
  {
    hide TarSize;
    var members := some + [m];
    assert members[..|some|] == some;
    assert forall i | 0 <= i < |some| :: members[..i] == some[..i];
  }

  lemma ProperNext(f: Formats, some: seq<Member>, m: Member)
    ensures (forall x <- some + [m] :: Proper(f, x)) <==> (forall x <- some :: Proper(f, x)) && Proper(f, m)
  {
    hide Proper;
    assert forall x :: x in some + [m] <==> x in some || x == m;
  }

  lemma DistinctNext(some: seq<Member>, m: Member)
    ensures Distinct(some + [m]) <==> Distinct(some) && (NameOf(m).Some? ==> forall x <- some :: NameOf(x) != NameOf(m))
  {
    hide NameOf;
    var members := some + [m];
    if Distinct(members) {
      assert forall i, j | 0 <= i < j < |some| :: some[i] == members[i] && some[j] == members[j];
      forall x | x in some && NameOf(m).Some? ensures NameOf(x) != NameOf(m) {
        var i :| 0 <= i < |some| && some[i] == x;
        assert members[i] == x && members[|some|] == m;
      }
    }
  }

  lemma HoldsNext(f: Formats, some: seq<Member>, s: Stage, m: Member)
    requires Holds(some, s)
    ensures Read(f, s, m).Ok? <==> Proper(f, m) && (NameOf(m).Some? ==> forall x <- some :: NameOf(x) != NameOf(m))
    ensures Read(f, s, m).Ok? ==> Holds(some + [m], Read(f, s, m).value)
  {
    assert forall x :: x in some + [m] <==> x in some || x == m;
    if Read(f, s, m).Ok? {
      var s' := Read(f, s, m).value;
      NamesNext(some, s, m, s');
      match m
      case Directory =>
      case LayoutFile(_, _) => assert forall x <- some :: !x.LayoutFile?;
      case IndexFile(_, _) => assert forall x <- some :: !x.IndexFile?;
      case BlobFile(h, _) => assert forall x <- some :: x.BlobFile? ==> x.digest != h;
    }
  }

  lemma NamesNext(some: seq<Member>, s: Stage, m: Member, s': Stage)
    requires forall n :: n in s.names <==> exists x :: x in some && NameOf(x) == Some(n)
    requires s'.names == if NameOf(m).Some? then s.names + {NameOf(m).value} else s.names
    ensures forall n :: n in s'.names <==> exists x :: x in some + [m] && NameOf(x) == Some(n)
  {
    hide NameOf;
    var members := some + [m];
    assert m in members;
    forall n ensures n in s'.names <==> exists x :: x in members && NameOf(x) == Some(n) {
      if x :| x in some && NameOf(x) == Some(n) {
        assert x in members;
      }
    }
  }

  /** An archive that fits as a whole fits at every header. */
  lemma WholeFits(members: seq<Member>)
    requires TarSize(members) <= MAX_ARCHIVE
    ensures FitsSize(members)
  {
    forall i | 0 <= i < |members| ensures TarSize(members[..i]) + 512 <= MAX_ARCHIVE {
      TarSizeGrows(members, i);
    }
  }

  /** The catalog entry of one archive root. */
  function Admit(f: Formats, refs: References, blobs: Blobs, root: Descriptor, ref: string, p: Platform): Result<(string, C.Entry)> {
    if Validate(f, blobs, root, 0, {}).result.Err? then Err(Invalid)
    else
      var d := Select(f, blobs, root, p, 0);
      if d.Err? then Err(d.error)
      else
        var key := if ref == "" then root.refName else ref;
        if key == "" || refs.normal(key).None? then Err(Invalid)
        else
          var name := refs.normal(key).value;
          if refs.pinned(name).Some? && refs.pinned(name).value != root.digest then Err(Mismatch)
          else Ok((name, C.Entry(root, map[p := d.value])))
  }

  /** What an import stores for a root, without its steps: under the canonical form of the name asked for, or else of the
      name in the archive; under a name that pins a digest only what has this digest; and the selected image. */
  ghost predicate Admits(f: Formats, refs: References, blobs: Blobs, root: Descriptor, ref: string, p: Platform, k: string, e: C.Entry) {
    && Validate(f, blobs, root, 0, {}).result.Ok?
    && (if ref == "" then root.refName != "" && refs.normal(root.refName) == Some(k) else refs.normal(ref) == Some(k))
    && (refs.pinned(k).Some? ==> refs.pinned(k).value == root.digest)
    && e.root == root && e.prepared.Keys == {p} && Select(f, blobs, root, p, 0) == Ok(e.prepared[p])
  }

  lemma AdmitIff(f: Formats, refs: References, blobs: Blobs, root: Descriptor, ref: string, p: Platform)
    ensures forall k, e :: Admit(f, refs, blobs, root, ref, p) == Ok((k, e)) <==> Admits(f, refs, blobs, root, ref, p, k, e)
  {
    hide Validate, Select;
    forall k, e | Admits(f, refs, blobs, root, ref, p, k, e) ensures Admit(f, refs, blobs, root, ref, p) == Ok((k, e)) {
      assert e == C.Entry(root, map[p := e.prepared[p]]);
    }
  }

  /** An archive that is accepted: proper, distinct members within the limits. */
  ghost predicate Accepted(f: Formats, members: seq<Member>) {
    && (forall m <- members :: Proper(f, m)) && Distinct(members)
    && |members| <= MAX_ENTRIES && TarSize(members) + 1024 <= MAX_ARCHIVE
  }

  lemma AcceptedIff(f: Formats, members: seq<Member>)
    ensures Accepted(f, members) <==> ReadAll(f, members).Ok? && |members| <= MAX_ENTRIES && TarSize(members) + 1024 <= MAX_ARCHIVE
    ensures ReadAll(f, members).Ok? ==> Holds(members, ReadAll(f, members).value)
  {
    ReadAllIff(f, members);
    hide ReadAll, TarSize, Proper, Distinct, FitsSize, Holds;
    if TarSize(members) <= MAX_ARCHIVE {
      WholeFits(members);
    }
  }

  lemma NothingRead(f: Formats, members: seq<Member>)
    ensures ReadAll(f, members[..0]) == Ok(NOTHING) && TarSize(members[..0]) == 0
  {
  }

  /** The members of the archive are read one by one, within the limits. Accepted are exactly the archives of proper,
      distinct members that fit the limits; what is staged is what they hold. */
  method Unpack(f: Formats, members: seq<Member>) returns (r: Result<Stage>)
    ensures r.Ok? <==> Accepted(f, members)
    ensures r.Ok? ==> Holds(members, r.value) && r == ReadAll(f, members)
  {
    AcceptedIff(f, members);
    NothingRead(f, members);
    hide Accepted, Holds, Read, ReadAll, TarSize, ContentSize, Padded;
    var stage := NOTHING;
    var read := 0;
    for i := 0 to |members|
      invariant i <= MAX_ENTRIES + 1 && (i == MAX_ENTRIES + 1 ==> |members| > MAX_ENTRIES)
      invariant ReadAll(f, members[..i]) == Ok(stage) && read == TarSize(members[..i])
    {
      if i > MAX_ENTRIES {
        return Err(Invalid);
      }
      ReadMember(f, members, i, stage);
      if read + 512 > MAX_ARCHIVE {
        return Err(Invalid);
      }
      var m := members[i];
      var next := Read(f, stage, m);
      if next.Err? {
        return next;
      }
      stage := next.value;
      read := read + 512 + Padded(ContentSize(m));
    }
    assert members[..|members|] == members;
    if |members| > MAX_ENTRIES || read + 1024 > MAX_ARCHIVE {
      return Err(Invalid);
    }
    return Ok(stage);
  }

  /** One member of an archive is read, or the archive is refused. */
  lemma ReadMember(f: Formats, members: seq<Member>, i: nat, stage: Stage)
    requires i < |members| && ReadAll(f, members[..i]) == Ok(stage)
    ensures TarSize(members[..i + 1]) == TarSize(members[..i]) + 512 + Padded(ContentSize(members[i]))
    ensures if TarSize(members[..i]) + 512 > MAX_ARCHIVE || Read(f, stage, members[i]).Err? then ReadAll(f, members).Err?
            else ReadAll(f, members[..i + 1]) == Read(f, stage, members[i])
  {
    hide Read, ReadAll, TarSize, ContentSize, Padded;
    assert members[..i + 1] == members[..i] + [members[i]];
    ReadNext(f, members[..i], members[i]);
    TarSizeNext(members[..i], members[i]);
    if ReadAll(f, members[..i + 1]).Err? {
      ReadAllFails(f, members, i + 1);
    }
  }

  lemma {:induction false} ReadAllFails(f: Formats, members: seq<Member>, i: nat)
    requires i <= |members| && ReadAll(f, members[..i]).Err?
    ensures ReadAll(f, members).Err?
    decreases |members|
  {
    if i == |members| {
      assert members[..i] == members;
    } else {
      assert members[..|members| - 1][..i] == members[..i];
      ReadAllFails(f, members[..|members| - 1], i);
    }
  }

  method Import(f: Formats, refs: References, members: seq<Member>, ref: string, platform: Platform)
    returns (r: Result<(Blobs, C.Catalog)>)
    ensures r.Ok? ==>
      && ReadAll(f, members).Ok? && r.value.0 == ReadAll(f, members).value.blobs
      && forall k <- r.value.1 :: Imported(f, refs, members, ref, Canonical(platform), k, r.value.1[k])
    ensures r.Ok? <==> Importable(f, refs, members, ref, Canonical(platform))
    ensures r.Ok? ==> forall k <- r.value.1 ::
      Admits(f, refs, r.value.0, r.value.1[k].root, ref, Canonical(platform), k, r.value.1[k])
    ensures r.Ok? ==> forall root <- ReadAll(f, members).value.index.manifests ::
      var a := Admit(f, refs, r.value.0, root, ref, Canonical(platform)); a.Ok? && a.value.0 in r.value.1
  {
    hide Validate, Select, LayersOk, ReadAll, Accepted, Holds, Admits;
    AcceptedIff(f, members);
    var p := Canonical(platform);
    var stage := Unpack(f, members);
    if stage.Err? {
      return Err(stage.error);
    }
    var Stage(_, layoutOk, index, blobs) := stage.value;
    if !layoutOk || index.schema != 2 || |index.manifests| == 0 {
      return Err(Invalid);
    }
    if ref != "" && |index.manifests| != 1 {
      return Err(Invalid);
    }
    var entries: C.Catalog := map[];
    for i := 0 to |index.manifests|
      invariant forall k <- entries :: Imported(f, refs, members, ref, p, k, entries[k])
      invariant forall j | 0 <= j < i :: Admit(f, refs, blobs, index.manifests[j], ref, p).Ok?
                                        && Admit(f, refs, blobs, index.manifests[j], ref, p).value.0 in entries
                                        && LayersOk(f, blobs, Admit(f, refs, blobs, index.manifests[j], ref, p).value.1.prepared[p])
    {
      var root := index.manifests[i];
      var a := Admit(f, refs, blobs, root, ref, p);
      if a.Err? {
        return Err(a.error);
      }
      var d := a.value.1.prepared[p];
      var checked := ValidateLayers(f, blobs, d);
      if checked.Err? {
        return Err(checked.error);
      }
      entries := entries[a.value.0 := a.value.1];
    }
    AllAdmitted(f, refs, members, ref, p, entries);
    return Ok((blobs, entries));
  }

  lemma AllAdmitted(f: Formats, refs: References, members: seq<Member>, ref: string, p: Platform, entries: C.Catalog)
    requires ReadAll(f, members).Ok? && forall k <- entries :: Imported(f, refs, members, ref, p, k, entries[k])
    ensures forall k <- entries :: Admits(f, refs, ReadAll(f, members).value.blobs, entries[k].root, ref, p, k, entries[k])
  {
    hide ReadAll, Admit, Admits, LayersOk;
    forall k | k in entries ensures Admits(f, refs, ReadAll(f, members).value.blobs, entries[k].root, ref, p, k, entries[k]) {
      AdmitIff(f, refs, ReadAll(f, members).value.blobs, entries[k].root, ref, p);
    }
  }

  /** The limits and checks that an archive has to pass. */
  ghost predicate Importable(f: Formats, refs: References, members: seq<Member>, ref: string, p: Platform) {
    && ReadAll(f, members).Ok? && |members| <= MAX_ENTRIES && TarSize(members) + 1024 <= MAX_ARCHIVE
    && var s := ReadAll(f, members).value;
    && s.layoutOk && s.index.schema == 2 && s.index.manifests != [] && (ref == "" || |s.index.manifests| == 1)
    && forall root <- s.index.manifests ::
         var a := Admit(f, refs, s.blobs, root, ref, p);
         a.Ok? && LayersOk(f, s.blobs, a.value.1.prepared[p])
  }

  /** The entry k comes from a root of the archive that validates, and is prepared for p by an image that is selected
      from it and has the layers that it says. OciPrepared says when that image validates by itself. */
  ghost predicate Imported(f: Formats, refs: References, members: seq<Member>, ref: string, p: Platform, k: string, e: C.Entry) {
    && ReadAll(f, members).Ok?
    && var s := ReadAll(f, members).value;
    && e.root in s.index.manifests && Admit(f, refs, s.blobs, e.root, ref, p) == Ok((k, e))
    && p in e.prepared && LayersOk(f, s.blobs, e.prepared[p])
  }

  /******* Export, then import *******/

  /** The stage after the layout, the index and these blobs have been read. */
  ghost function StageOf(st: Blobs, index: Index, visits: seq<Descriptor>): Stage {
    Stage({LayoutName, IndexName} + (set h | h in Digests(visits) :: BlobName(h)), true, index,
          map h | h in Digests(visits) && h in st :: File(st[h].bytes, true, 0))
  }

  lemma {:induction false} TarSizeGrows(members: seq<Member>, i: nat)
    requires i <= |members|
    ensures TarSize(members[..i]) <= TarSize(members)
    ensures i < |members| ==> TarSize(members[..i]) + 512 <= TarSize(members)
    decreases |members|
  {
    if i < |members| {
      TarSizeGrows(members[..|members| - 1], i);
      assert members[..|members| - 1][..i] == members[..i];
    } else {
      assert members[..i] == members;
    }
  }

  lemma HeadIsRead(f: Formats, st: Blobs, root: Descriptor, annotation: string, indexSize: nat)
    requires indexSize <= MAX_METADATA && TarSize(Head(root, annotation, indexSize)) <= MAX_ARCHIVE
    ensures ReadAll(f, Head(root, annotation, indexSize)) == Ok(StageOf(st, Index(2, [root.(refName := annotation)]), []))
  {
    var members := Head(root, annotation, indexSize);
    var first := [members[0]];
    TarSizeGrows(members, 1);
    assert members[..1] == first && first[..0] == [] && |first| == 1;
    assert ReadAll(f, []) == Ok(NOTHING) && TarSize([]) == 0;
    assert NOTHING.names + {LayoutName} == {LayoutName};
    assert Read(f, NOTHING, members[0]) == Ok(NOTHING.(names := {LayoutName}, layoutOk := true));
    assert ReadAll(f, first) == Ok(NOTHING.(names := {LayoutName}, layoutOk := true));
    var s := StageOf(st, Index(2, [root.(refName := annotation)]), []);
    assert Digests([]) == {} && s.blobs == map[] && s.names == {LayoutName} + {IndexName};
  }

  /** The blobs of a validated graph are accepted one after the other. */
  lemma {:induction false} BlobsAreRead(f: Formats, st: Blobs, head: seq<Member>, index: Index, visits: seq<Descriptor>)
    requires ReadAll(f, head) == Ok(StageOf(st, index, []))
    requires forall v <- visits :: Sound(f, st, v)
    requires forall i, j | 0 <= i < j < |visits| :: visits[i].digest != visits[j].digest
    requires TarSize(head + BlobMembers(st, visits)) <= MAX_ARCHIVE
    ensures ReadAll(f, head + BlobMembers(st, visits)) == Ok(StageOf(st, index, visits))
    decreases |visits|
  {
    hide Sound, StageOf, Read, BlobMembers, ReadAll, TarSize;
    var members := head + BlobMembers(st, visits);
    if visits == [] {
      assert members == head;
    } else {
      var some, v := visits[..|visits| - 1], visits[|visits| - 1];
      LastBlob(f, st, head, visits);
      TarSizeGrows(members, |members| - 1);
      assert forall x <- some :: x in visits;
      BlobsAreRead(f, st, head, index, some);
      NewDigest(visits);
      BlobIsRead(f, st, index, some, v);
      assert some + [v] == visits;
      ReadNext(f, head + BlobMembers(st, some), BlobFile(v.digest, st[v.digest].bytes));
    }
  }

  lemma LastBlob(f: Formats, st: Blobs, head: seq<Member>, visits: seq<Descriptor>)
    requires visits != [] && Sound(f, st, visits[|visits| - 1])
    ensures var members, v := head + BlobMembers(st, visits), visits[|visits| - 1];
      && members[..|members| - 1] == head + BlobMembers(st, visits[..|visits| - 1])
      && v.digest in st && members[|members| - 1] == BlobFile(v.digest, st[v.digest].bytes)
      && members == head + BlobMembers(st, visits[..|visits| - 1]) + [BlobFile(v.digest, st[v.digest].bytes)]
  {
  }

  lemma NewDigest(visits: seq<Descriptor>)
    requires visits != [] && forall i, j | 0 <= i < j < |visits| :: visits[i].digest != visits[j].digest
    ensures visits[|visits| - 1].digest !in Digests(visits[..|visits| - 1])
  {
  }

  lemma BlobIsRead(f: Formats, st: Blobs, index: Index, visits: seq<Descriptor>, v: Descriptor)
    requires Sound(f, st, v) && v.digest !in Digests(visits)
    ensures Read(f, StageOf(st, index, visits), BlobFile(v.digest, st[v.digest].bytes)) == Ok(StageOf(st, index, visits + [v]))
  {
    hide Children, Acceptable;
    assert Digests(visits + [v]) == Digests(visits) + {v.digest};
    var s, s' := StageOf(st, index, visits), StageOf(st, index, visits + [v]);
    assert s'.names == s.names + {BlobName(v.digest)};
    assert s'.blobs == s.blobs[v.digest := File(st[v.digest].bytes, true, 0)];
  }

  /** A platform that is prepared in the store: its image validates, runs there, and has the layers it says. */
  ghost predicate IsPrepared(f: Formats, st: Blobs, d: Descriptor, p: Platform) {
    Validate(f, st, d, 0, {}).result.Ok? && RunsOn(f, st, d, p) && LayersOk(f, st, d)
  }

  /** The archive of one prepared image within the limits of an import. */
  ghost predicate FitsImport(members: seq<Member>, indexSize: nat) {
    |members| <= MAX_ENTRIES && TarSize(members) + 1024 <= MAX_ARCHIVE && indexSize <= MAX_METADATA
  }

  /** The archive holds one root, whose image for p is the manifest of root, and exactly the blobs of its graph. */
  ghost predicate PreparesAgain(f: Formats, refs: References, st: Blobs, root: Descriptor, members: seq<Member>, p: Platform) {
    && ReadAll(f, members).Ok?
    && var s := ReadAll(f, members).value;
    && |s.index.manifests| == 1
    && var a := Admit(f, refs, s.blobs, s.index.manifests[0], "", p);
    && a.Ok? && p in a.value.1.prepared && a.value.1.prepared[p].digest == root.digest
    && s.blobs.Keys == Validate(f, st, root, 0, {}).seen
    && forall h <- s.blobs :: h in st && s.blobs[h].bytes == st[h].bytes
  }

  /** The import stores it under the canonical form of the reference it was exported under, or, if that pins a digest,
      under a name that pins the exported root. */
  ghost predicate NamedAgain(f: Formats, refs: References, root: Descriptor, ref: string, members: seq<Member>, p: Platform) {
    && ReadAll(f, members).Ok?
    && var s := ReadAll(f, members).value;
    && |s.index.manifests| == 1
    && var a := Admit(f, refs, s.blobs, s.index.manifests[0], "", p);
    && a.Ok?
    && (!refs.bare(ref) && refs.pinned(ref).None? ==> Some(a.value.0) == refs.normal(ref))
    && (!refs.bare(ref) && refs.pinned(ref).Some? ==> refs.pinned(a.value.0) == Some(root.digest))
  }

  /** Exporting a prepared platform and importing the archive for that platform prepares the same manifest again,
      from the same bytes, whatever else was in the store. */
  lemma RoundTrip(f: Formats, refs: References, st: Blobs, root: Descriptor, ref: string, indexSize: nat, platform: Platform)
    requires Lawful(refs) && Annotation(refs, ref, root.digest).Some? && IsPrepared(f, st, root, Canonical(platform))
    requires FitsImport(Exported(f, refs, st, root, ref, indexSize), indexSize)
    ensures Importable(f, refs, Exported(f, refs, st, root, ref, indexSize), "", Canonical(platform))
    ensures PreparesAgain(f, refs, st, root, Exported(f, refs, st, root, ref, indexSize), Canonical(platform))
    ensures NamedAgain(f, refs, root, ref, Exported(f, refs, st, root, ref, indexSize), Canonical(platform))
  {
    var members, p := Exported(f, refs, st, root, ref, indexSize), Canonical(platform);
    var annotation, v := Annotation(refs, ref, root.digest).value, Validate(f, st, root, 0, {});
    var index := Index(2, [root.(refName := annotation)]);
    hide Validate, Exported, ReadAll, Importable, Lawful, Annotation, Admit, LayersOk, RunsOn, StageOf, Acceptable;
    ExportedIsRead(f, refs, st, root, ref, indexSize);
    StagedBlobs(f, st, root, index);
    AnnotationWorks(refs, ref, root.digest);
    RootIsAdmitted(f, refs, st, StageOf(st, index, v.visits).blobs, root, annotation, p);
    MakesImportable(f, refs, members, StageOf(st, index, v.visits), p);
    AgreeMeans(st, StageOf(st, index, v.visits).blobs, v.seen);
    KeyIsName(f, refs, StageOf(st, index, v.visits).blobs, root, ref, p);
  }

  lemma KeyIsName(f: Formats, refs: References, blobs: Blobs, root: Descriptor, ref: string, p: Platform)
    requires Lawful(refs) && Annotation(refs, ref, root.digest).Some?
    requires Admit(f, refs, blobs, root.(refName := Annotation(refs, ref, root.digest).value), "", p).Ok?
    ensures var key := Admit(f, refs, blobs, root.(refName := Annotation(refs, ref, root.digest).value), "", p).value.0;
      && (!refs.bare(ref) && refs.pinned(ref).None? ==> Some(key) == refs.normal(ref))
      && (!refs.bare(ref) && refs.pinned(ref).Some? ==> refs.pinned(key) == Some(root.digest))
  {
    hide Validate, Select;
  }

  lemma AgreeMeans(st: Blobs, st': Blobs, seen: set<Digest>)
    requires Agree(st, st', seen) && st'.Keys == seen
    ensures forall h <- st' :: h in st && st'[h].bytes == st[h].bytes
  {
  }

  /** Reading an exported archive gives exactly the blobs of the graph. */
  lemma ExportedIsRead(f: Formats, refs: References, st: Blobs, root: Descriptor, ref: string, indexSize: nat)
    requires Annotation(refs, ref, root.digest).Some? && Validate(f, st, root, 0, {}).result.Ok?
    requires FitsImport(Exported(f, refs, st, root, ref, indexSize), indexSize)
    ensures var index := Index(2, [root.(refName := Annotation(refs, ref, root.digest).value)]);
      ReadAll(f, Exported(f, refs, st, root, ref, indexSize)) == Ok(StageOf(st, index, Validate(f, st, root, 0, {}).visits))
  {
    var members := Exported(f, refs, st, root, ref, indexSize);
    var annotation := Annotation(refs, ref, root.digest).value;
    OneGraph(f, st, root);
    hide Validate, Walk, Collect, ReadAll, Annotation, Sound, StageOf;
    TarSizeGrows(members, 2);
    assert members[..2] == Head(root, annotation, indexSize);
    HeadIsRead(f, st, root, annotation, indexSize);
    BlobsAreRead(f, st, Head(root, annotation, indexSize), Index(2, [root.(refName := annotation)]), Validate(f, st, root, 0, {}).visits);
  }

  lemma StagedBlobs(f: Formats, st: Blobs, root: Descriptor, index: Index)
    requires Validate(f, st, root, 0, {}).result.Ok?
    ensures var v := Validate(f, st, root, 0, {});
      var s := StageOf(st, index, v.visits);
      && s.layoutOk && s.index == index && s.blobs.Keys == v.seen && Agree(st, s.blobs, v.seen)
  {
    AllThere(f, st, root);
    hide Validate;
  }

  lemma AllThere(f: Formats, st: Blobs, root: Descriptor)
    requires Validate(f, st, root, 0, {}).result.Ok?
    ensures forall h <- Validate(f, st, root, 0, {}).seen :: h in st && st[h].regular
    ensures Validate(f, st, root, 0, {}).seen == Digests(Validate(f, st, root, 0, {}).visits)
  {
    OneGraph(f, st, root);
    hide Validate, Walk, Collect;
  }

  lemma MakesImportable(f: Formats, refs: References, members: seq<Member>, s: Stage, p: Platform)
    requires ReadAll(f, members) == Ok(s) && |members| <= MAX_ENTRIES && TarSize(members) + 1024 <= MAX_ARCHIVE
    requires s.layoutOk && s.index.schema == 2 && |s.index.manifests| == 1
    requires var a := Admit(f, refs, s.blobs, s.index.manifests[0], "", p); a.Ok? && LayersOk(f, s.blobs, a.value.1.prepared[p])
    ensures Importable(f, refs, members, "", p)
  {
    hide Admit, LayersOk, ReadAll;
  }

  lemma AnnotationWorks(refs: References, ref: string, root: Digest)
    requires Lawful(refs) && Annotation(refs, ref, root).Some?
    ensures var a := Annotation(refs, ref, root).value;
      && a != "" && refs.normal(a).Some?
      && (refs.pinned(refs.normal(a).value).Some? ==> refs.pinned(refs.normal(a).value).value == root)
  {
  }

  /** The root that was exported is admitted on the strength of the exported blobs alone. */
  lemma RootIsAdmitted(f: Formats, refs: References, st: Blobs, blobs: Blobs, root: Descriptor, annotation: string, p: Platform)
    requires IsPrepared(f, st, root, p)
    requires annotation != "" && refs.normal(annotation).Some?
    requires refs.pinned(refs.normal(annotation).value).Some? ==> refs.pinned(refs.normal(annotation).value).value == root.digest
    requires Agree(st, blobs, Validate(f, st, root, 0, {}).seen)
    ensures var r := root.(refName := annotation);
      var a := Admit(f, refs, blobs, r, "", p);
      a.Ok? && p in a.value.1.prepared && a.value.1.prepared[p].digest == root.digest && LayersOk(f, blobs, a.value.1.prepared[p])
  {
    var r := root.(refName := annotation);
    ValidateLocal(f, st, blobs, root, 0, {});
    LayersLocal(f, st, blobs, root);
    RunsLocal(f, st, blobs, root, p);
    assert Acceptable(f, root);
    SameReference(f, blobs, root, r);
    SameReference(f, blobs, root, r.(platform := Some(p)));
    hide Validate, LayersOk, Children;
    assert RunsOn(f, blobs, r, p);
  }

  lemma RunsLocal(f: Formats, st: Blobs, st': Blobs, d: Descriptor, p: Platform)
    requires RunsOn(f, st, d, p) && Validate(f, st, d, 0, {}).result.Ok? && Agree(st, st', Validate(f, st, d, 0, {}).seen)
    ensures RunsOn(f, st', d, p) && Children(f, st', d) == Children(f, st, d)
  {
    ImageMarks(f, st, d);
    hide Validate;
  }
}
