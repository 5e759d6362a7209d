/** What an import prepares, and what Resolve, with or without a warm verification cache, makes of it. */
module OciPrepared {
  import opened Prelude
  import opened OciGraphs
  import opened OciLayers
  import opened OciReach
  import opened OciArchives
  import opened PlatformSelection
  import opened VerifiedCaches
  import C = Catalogs

  /******* The limits of an archive are limits of its graphs *******/

  lemma {:induction false} WeightSame(st: Blobs, st': Blobs, marks: set<Digest>)
    requires marks <= st.Keys && marks <= st'.Keys && forall h <- marks :: |st'[h].bytes| == |st[h].bytes|
    ensures Weight(st', marks) == Weight(st, marks)
    decreases marks
  {
    if marks != {} {
      var h :| h in marks;
      WeightOf(st, marks, h);
      WeightOf(st', marks, h);
      WeightSame(st, st', marks - {h});
    }
  }

  lemma {:induction false} ReadAllFits(f: Formats, members: seq<Member>)
    requires ReadAll(f, members).Ok?
    ensures var st := ReadAll(f, members).value.blobs; |st| <= |members| && Weight(st, st.Keys) <= TarSize(members)
  {
    hide Weight;
    if members == [] {
      assert Weight(map[], {}) == 0 by { NoWeight(map[]); }
    } else {
      var some, m := members[..|members| - 1], members[|members| - 1];
      ReadAllFits(f, some);
      var st := ReadAll(f, some).value.blobs;
      if m.BlobFile? {
        ReadAllIff(f, some);
        NewBlob(some, ReadAll(f, some).value, m.digest);
        var st' := st[m.digest := File(m.bytes, true, 0)];
        assert ReadAll(f, members).value.blobs == st' && st'.Keys == st.Keys + {m.digest};
        WeightAdd(st', st.Keys, m.digest);
        WeightSame(st, st', st.Keys);
        BlobsGrow(st, st', m.digest);
      }
    }
  }

  lemma NoWeight(st: Blobs)
    ensures Weight(st, {}) == 0
  {
  }

  lemma NewBlob(some: seq<Member>, s: Stage, h: Digest)
    requires OciArchives.Holds(some, s) && BlobName(h) !in s.names
    ensures h !in s.blobs
  {
    assert forall b: Bytes :: NameOf(BlobFile(h, b)) == Some(BlobName(h));
  }

  lemma BlobsGrow(st: Blobs, st': Blobs, h: Digest)
    requires st'.Keys == st.Keys + {h} && h !in st
    ensures |st'| == |st| + 1
  {
    assert |st'.Keys| == |st'| && |st.Keys| == |st|;
  }

  /** The blobs of an accepted archive are within the limits of one validation. */
  lemma AcceptedFits(f: Formats, members: seq<Member>)
    requires ReadAll(f, members).Ok? && |members| <= OciArchives.MAX_ENTRIES && TarSize(members) + 1024 <= MAX_ARCHIVE
    ensures FitsLimits(ReadAll(f, members).value.blobs)
  {
    ReadAllFits(f, members);
    hide ReadAll, TarSize, Weight;
  }

  /******* The image of an import *******/

  lemma LeadsIsPath(f: Formats, st: Blobs, path: seq<Descriptor>, p: Platform)
    requires Leads(f, st, path, p)
    ensures Path(f, st, path) && RunsOn(f, st, path[|path| - 1], p)
    decreases |path|
  {
    hide Children, RunsOn;
    if |path| > 1 {
      var rest := path[1..];
      LeadsIsPath(f, st, rest, p);
      forall i | 0 < i < |path| ensures IsChild(f, st, path[i], path[i - 1]) {
        if i > 1 {
          assert IsChild(f, st, rest[i - 1], rest[i - 2]);
        }
      }
    }
  }

  /** What is selected is a reference of the graph, marked with the platform. */
  lemma SelectedIsReachable(f: Formats, st: Blobs, root: Descriptor, p: Platform) returns (e: Descriptor)
    requires Select(f, st, root, p, 0).Ok?
    ensures Select(f, st, root, p, 0) == Ok(e.(platform := Some(p))) && Reachable(f, st, root, e) && RunsOn(f, st, e, p)
  {
    SelectIsFirst(f, st, root, p, 0);
    e := Images(f, st, root, p, 0)[0];
    ImagesAreReached(f, st, root, p, 0, e);
    hide Select, Images, RunsOn, Leads;
    var path :| Leads(f, st, path, p) && path[0] == root && path[|path| - 1] == e && 0 + |path| <= MAX_DEPTH + 1;
    LeadsIsPath(f, st, path, p);
    hide Path;
    assert Reachable(f, st, root, e);
  }

  /** A reference that is marked with a platform is as good as before. */
  lemma MarkedIsSame(f: Formats, st: Blobs, e: Descriptor, p: Platform, n: nat)
    requires Acceptable(f, e)
    ensures var d := e.(platform := Some(p));
      && Acceptable(f, d) && Children(f, st, d) == Children(f, st, e) && (RunsOn(f, st, d, p) <==> RunsOn(f, st, e, p))
      && Validate(f, st, d, 0, {}).result == Validate(f, st, e, 0, {}).result
      && Validate(f, st, d, 0, {}).seen == Validate(f, st, e, 0, {}).seen
      && (Shallow(f, st, d, n) ==> Shallow(f, st, e, n))
  {
    var d := e.(platform := Some(p));
    SameReference(f, st, e, d);
    hide Validate, LayersOk, Children, Acceptable;
    if Shallow(f, st, d, n) {
      forall path | Path(f, st, path) && path[0] == e ensures |path| <= n + 1 {
        var other := [d] + path[1..];
        forall i | 0 < i < |other| ensures IsChild(f, st, other[i], other[i - 1]) {
          assert IsChild(f, st, path[i], path[i - 1]);
        }
        assert Path(f, st, other) && other[0] == d;
      }
    }
  }

  /** The catalog entry, its image as a reference of its root, and the store of the archive. */
  lemma ImportedParts(f: Formats, refs: References, members: seq<Member>, ref: string, p: Platform, k: string, entry: C.Entry)
    returns (blobs: Blobs, e: Descriptor)
    requires Imported(f, refs, members, ref, p, k, entry)
    ensures ReadAll(f, members).Ok? && blobs == ReadAll(f, members).value.blobs
    ensures Validate(f, blobs, entry.root, 0, {}).result.Ok? && Reachable(f, blobs, entry.root, e)
    ensures entry.prepared[p] == e.(platform := Some(p)) && RunsOn(f, blobs, e, p) && LayersOk(f, blobs, entry.prepared[p])
  {
    hide Validate, Select, LayersOk, ReadAll, Reachable, RunsOn;
    blobs := ReadAll(f, members).value.blobs;
    e := SelectedIsReachable(f, blobs, entry.root, p);
  }

  /** The promise of an import: within the limits of the archive, if the root is consistent and the image is not nested
      too deeply, then what was prepared validates by itself in every store that has its blobs, runs on the platform
      and has the layers that it says. */
  lemma ImportPrepares(f: Formats, refs: References, members: seq<Member>, ref: string, p: Platform, k: string, entry: C.Entry, st: Blobs)
    requires Imported(f, refs, members, ref, p, k, entry)
    requires |members| <= OciArchives.MAX_ENTRIES && TarSize(members) + 1024 <= MAX_ARCHIVE
    requires var blobs := ReadAll(f, members).value.blobs;
      Consistent(f, blobs, entry.root) && Shallow(f, blobs, entry.prepared[p], MAX_DEPTH) && OciGraphs.Agree(blobs, st, blobs.Keys)
    ensures IsPrepared(f, st, entry.prepared[p], p)
  {
    var blobs, e := ImportedParts(f, refs, members, ref, p, k, entry);
    AcceptedFits(f, members);
    hide Imported, ReadAll, TarSize, Consistent, Shallow, FitsLimits, LayersOk, Validate, Reachable, RunsOn, Select, Children;
    ReachableIsSound(f, blobs, entry.root, e);
    var d := entry.prepared[p];
    MarkedIsSame(f, blobs, e, p, MAX_DEPTH);
    PartValidates(f, blobs, entry.root, e);
    SeenIsStored(f, blobs, d);
    StillPrepared(f, blobs, st, d, p);
  }

  lemma SeenIsStored(f: Formats, st: Blobs, d: Descriptor)
    requires Validate(f, st, d, 0, {}).result.Ok?
    ensures Validate(f, st, d, 0, {}).seen <= st.Keys
  {
    AllThere(f, st, d);
    hide Validate;
  }

  lemma StillPrepared(f: Formats, blobs: Blobs, st: Blobs, d: Descriptor, p: Platform)
    requires IsPrepared(f, blobs, d, p) && OciGraphs.Agree(blobs, st, blobs.Keys) && Validate(f, blobs, d, 0, {}).seen <= blobs.Keys
    ensures IsPrepared(f, st, d, p)
  {
    assert d.media.IsImage();
    hide Validate, LayersOk, RunsOn, Children;
    assert OciGraphs.Agree(blobs, st, Validate(f, blobs, d, 0, {}).seen);
    ValidateLocal(f, blobs, st, d, 0, {});
    LayersLocal(f, blobs, st, d);
    RunsLocal(f, blobs, st, d, p);
  }

  /** Whatever the root is: the prepared image validates by itself exactly if everything below it is sound, provided it
      is consistent and not nested too deeply. */
  lemma ImportedValidatesIff(f: Formats, refs: References, members: seq<Member>, ref: string, p: Platform, k: string, entry: C.Entry)
    requires Imported(f, refs, members, ref, p, k, entry)
    requires |members| <= OciArchives.MAX_ENTRIES && TarSize(members) + 1024 <= MAX_ARCHIVE
    requires var blobs := ReadAll(f, members).value.blobs;
      Consistent(f, blobs, entry.prepared[p]) && Shallow(f, blobs, entry.prepared[p], MAX_DEPTH)
    ensures var blobs := ReadAll(f, members).value.blobs;
      Validate(f, blobs, entry.prepared[p], 0, {}).result.Ok? <==> AllSound(f, blobs, entry.prepared[p])
  {
    AcceptedFits(f, members);
    hide Imported, ReadAll, TarSize, Consistent, Shallow, FitsLimits, Validate, AllSound;
    ValidatesIffSound(f, ReadAll(f, members).value.blobs, entry.prepared[p]);
  }

  /******* The verification cache *******/

  /** What reaches the cache from an import with a consistent root is acceptable, so that every hit is right. */
  lemma ImportedHit(f: Formats, refs: References, members: seq<Member>, ref: string, p: Platform, k: string, entry: C.Entry,
                    written: nat -> (Bytes, bool), o: Origin, g: Graph, st: Blobs)
    requires Imported(f, refs, members, ref, p, k, entry)
    requires Consistent(f, ReadAll(f, members).value.blobs, entry.root)
    requires Justifies(f, written, o, KeyOf(entry.prepared[p]), g) && Honest(st, written) && Fresh(st, g)
    ensures Verifies(f, st, entry.prepared[p], g.size)
  {
    var blobs, e := ImportedParts(f, refs, members, ref, p, k, entry);
    hide Imported, ReadAll, Consistent, Validate, Reachable, RunsOn, Select, LayersOk, Children, Justifies, Verifies, Honest, Fresh;
    ReachableIsSound(f, blobs, entry.root, e);
    MarkedIsSame(f, blobs, e, p, 0);
    HitIffAcceptable(f, written, o, g, st, entry.prepared[p]);
  }

  /** The same for a descriptor that was validated itself before it was published, as a pull does. */
  lemma ValidatedHit(f: Formats, d: Descriptor, was: Blobs, written: nat -> (Bytes, bool), o: Origin, g: Graph, st: Blobs)
    requires Validate(f, was, d, 0, {}).result.Ok?
    requires Justifies(f, written, o, KeyOf(d), g) && Honest(st, written) && Fresh(st, g)
    ensures Verifies(f, st, d, g.size)
  {
    assert Acceptable(f, d);
    hide Validate, Acceptable, Justifies, Verifies, Honest, Fresh;
    HitIffAcceptable(f, written, o, g, st, d);
  }

  /******* It happens *******/

  /** An archive whose root refers to the same digest first as a plain blob and then as an index, which is skipped
      although it refers to its manifest with an external URL. */
  datatype Example = Example(f: Formats, refs: References, members: seq<Member>, root: Descriptor, image: Descriptor, p: Platform, st: Blobs)

  function Smuggled(): Example {
    var p := Platform("linux", "amd64", "");
    var config := Descriptor(Other("application/vnd.oci.image.config.v1+json"), 4, 1, [], [], None, "");
    var image := Descriptor(OciManifest, 3, 1, ["https://registry.example/blob"], [], None, "");
    var nested := Descriptor(OciIndex, 2, 1, [], [], None, "");
    var root := Descriptor(OciIndex, 1, 1, [], [], None, "name");
    var f := Formats(
      h => true, (b: Bytes) => if |b| == 1 then b[0] else 0,
      (b: Bytes) => Some(Index(2, if b == [1] then [nested.(media := Other("text/plain")), nested] else [image])),
      (b: Bytes) => Some(Manifest(2, config, [])), (b: Bytes) => Some(Config(p, "layers", [])),
      m => Plain, (c: Compression, b: Bytes) => Some(b));
    var refs := References(x => if x == "" then None else Some(x), x => None, (x, h) => x, x => false, h => "name");
    var members := [LayoutFile("1.0.0", 30), IndexFile(Index(2, [root]), 100),
                    BlobFile(1, [1]), BlobFile(2, [2]), BlobFile(3, [3]), BlobFile(4, [4])];
    Example(f, refs, members, root, image.(platform := Some(p)), p, map h | h in {1, 2, 3, 4} :: File([h], true, h))
  }

  /** A store with the four blobs of the example. */
  ghost predicate Four(st: Blobs) {
    st.Keys == {1, 2, 3, 4} && forall h <- st :: h < 256 && st[h].bytes == [h] && st[h].regular
  }

  lemma {:induction false} TarSizeAtMost(members: seq<Member>)
    requires forall m <- members :: ContentSize(m) <= 512
    ensures TarSize(members) <= 1024 * |members|
  {
    if members != [] {
      TarSizeAtMost(members[..|members| - 1]);
      assert ContentSize(members[|members| - 1]) <= 512;
    }
  }

  lemma SmuggledIsRead()
    ensures var x := Smuggled();
      && ReadAll(x.f, x.members).Ok? && |x.members| <= OciArchives.MAX_ENTRIES && TarSize(x.members) + 1024 <= MAX_ARCHIVE
      && var s := ReadAll(x.f, x.members).value;
      && s.layoutOk && s.index == Index(2, [x.root]) && Four(s.blobs)
  {
    var x := Smuggled();
    var members := x.members;
    SmuggledIsProper(members);
    hide ReadAll, TarSize, Distinct, Proper, OciArchives.Holds;
    assert forall m <- members :: ContentSize(m) <= 512;
    TarSizeAtMost(members);
    WholeFits(members);
    ReadAllIff(x.f, members);
    SmuggledHolds(ReadAll(x.f, members).value);
  }

  lemma SmuggledIsProper(members: seq<Member>)
    requires members == Smuggled().members
    ensures Distinct(members) && forall m <- members :: Proper(Smuggled().f, m)
  {
  }

  lemma SmuggledHolds(s: Stage)
    requires OciArchives.Holds(Smuggled().members, s)
    ensures s.layoutOk && s.index == Index(2, [Smuggled().root]) && Four(s.blobs)
  {
    var members := Smuggled().members;
    SmuggledMembers(members);
    hide OciArchives.Holds, Four;
    FourHeld(members, s, Index(2, [Smuggled().root]));
  }

  lemma SmuggledMembers(members: seq<Member>)
    requires members == Smuggled().members
    ensures LayoutFile("1.0.0", 30) in members && IndexFile(Index(2, [Smuggled().root]), 100) in members
    ensures BlobFile(1, [1]) in members && BlobFile(2, [2]) in members && BlobFile(3, [3]) in members && BlobFile(4, [4]) in members
    ensures forall m <- members :: m.BlobFile? ==> m.digest in {1, 2, 3, 4} && m.bytes == [m.digest]
  {
    assert members[0] == LayoutFile("1.0.0", 30) && members[1] == IndexFile(Index(2, [Smuggled().root]), 100);
    assert members[2] == BlobFile(1, [1]) && members[3] == BlobFile(2, [2]);
    assert members[4] == BlobFile(3, [3]) && members[5] == BlobFile(4, [4]);
  }

  lemma FourHeld(members: seq<Member>, s: Stage, index: Index)
    requires OciArchives.Holds(members, s) && LayoutFile("1.0.0", 30) in members && IndexFile(index, 100) in members
    requires BlobFile(1, [1]) in members && BlobFile(2, [2]) in members && BlobFile(3, [3]) in members && BlobFile(4, [4]) in members
    requires forall m <- members :: m.BlobFile? ==> m.digest in {1, 2, 3, 4} && m.bytes == [m.digest]
    ensures s.layoutOk && s.index == index && Four(s.blobs)
  {
    assert LayoutFile("1.0.0", 30).LayoutFile? && IndexFile(index, 100).IndexFile?;
    forall h | h in s.blobs ensures h in {1, 2, 3, 4} && s.blobs[h].bytes == [h] && s.blobs[h].regular {
      assert BlobFile(h, s.blobs[h].bytes) in members;
    }
  }

  lemma SmuggledChildren(st: Blobs)
    requires Four(st)
    ensures var x := Smuggled();
      && Children(x.f, st, x.root).Ok? && |Children(x.f, st, x.root).value| == 2
      && var kids := Children(x.f, st, x.root).value;
      && kids[1] == Descriptor(OciIndex, 2, 1, [], [], None, "") && kids[0] == kids[1].(media := Other("text/plain"))
      && Children(x.f, st, kids[1]) == Ok([x.image.(platform := None)])
  {
  }

  lemma SmuggledValidates(st: Blobs)
    requires Four(st)
    ensures var x := Smuggled(); Validate(x.f, st, x.root, 0, {}).result == Ok(2)
  {
    var x := Smuggled();
    SmuggledChildren(st);
    var kids := Children(x.f, st, x.root).value;
    SmuggledKids(st, kids[0], kids[1]);
    hide Children;
    assert Validate(x.f, st, x.root, 0, {}) ==
      var v := ValidateKids(x.f, st, kids, 0, {} + {1}, 1); v.(visits := [x.root] + v.visits);
    assert {} + {1} == {1};
    hide Validate;
    TwoKids(x.f, st, kids, Visit(Ok(1), {1, 2}, [kids[0]]), Visit(Ok(0), {1, 2}, []));
  }

  lemma SmuggledKids(st: Blobs, blob: Descriptor, nested: Descriptor)
    requires Four(st) && nested == Descriptor(OciIndex, 2, 1, [], [], None, "") && blob == nested.(media := Other("text/plain"))
    ensures var x := Smuggled();
      && Validate(x.f, st, blob, 1, {1}) == Visit(Ok(1), {1, 2}, [blob])
      && Validate(x.f, st, nested, 1, {1, 2}) == Visit(Ok(0), {1, 2}, [])
  {
    var f := Smuggled().f;
    assert Acceptable(f, blob) && HasFile(f, st, blob) && Acceptable(f, nested) && HasFile(f, st, nested);
    assert f.hash(st[2].bytes) == 2 && Children(f, st, blob) == Ok([]);
    LeafValidates(f, st, blob, 1, {1});
    assert {1} + {2} == {1, 2};
    hide Children, HasFile, Acceptable;
    MarkedValidates(f, st, nested, 1, {1, 2});
  }

  /** A blob without children is marked and counted. */
  lemma LeafValidates(f: Formats, st: Blobs, d: Descriptor, depth: nat, seen: set<Digest>)
    requires Acceptable(f, d) && HasFile(f, st, d) && f.hash(st[d.digest].bytes) == d.digest && Children(f, st, d) == Ok([])
    requires depth <= MAX_DEPTH && |seen| <= MAX_BLOBS && d.digest !in seen
    ensures Validate(f, st, d, depth, seen) == Visit(Ok(d.size), seen + {d.digest}, [d])
  {
    hide Children, HasFile, Acceptable;
    assert [d] + [] == [d];
  }

  lemma MarkedValidates(f: Formats, st: Blobs, d: Descriptor, depth: nat, seen: set<Digest>)
    requires Acceptable(f, d) && HasFile(f, st, d) && depth <= MAX_DEPTH && |seen| <= MAX_BLOBS && d.digest in seen
    ensures Validate(f, st, d, depth, seen) == Visit(Ok(0), seen, [])
  {
    hide Children, HasFile, Acceptable;
  }

  lemma SmuggledRuns(st: Blobs)
    requires Four(st)
    ensures var x := Smuggled();
      && RunsOn(x.f, st, x.image.(platform := None), x.p) && LayersOk(x.f, st, x.image) && LayersOk(x.f, st, x.image.(urls := []))
  {
  }

  lemma SmuggledIsSelected(st: Blobs)
    requires Four(st)
    ensures var x := Smuggled(); Select(x.f, st, x.root, x.p, 0) == Ok(x.image)
  {
    var x := Smuggled();
    SmuggledChildren(st);
    SmuggledRuns(st);
    hide Children, LayersOk;
    var kids := Children(x.f, st, x.root).value;
    assert Select(x.f, st, kids[1], x.p, 1) == Ok(x.image) by {
      assert Select(x.f, st, x.image.(platform := None), x.p, 2) == Ok(x.image);
      hide RunsOn;
      var images := [x.image.(platform := None)];
      assert SelectKids(x.f, st, images, x.p, 1) == Ok(x.image);
    }
    assert Select(x.f, st, kids[0], x.p, 1).Err?;
    hide RunsOn;
    assert kids[1..][0] == kids[1];
    hide Select;
    assert SelectKids(x.f, st, kids[1..], x.p, 0) == Ok(x.image);
    assert SelectKids(x.f, st, kids, x.p, 0) == Ok(x.image);
    SelectIndex(x.f, st, x.root, x.p);
  }

  lemma SelectIndex(f: Formats, st: Blobs, d: Descriptor, p: Platform)
    requires d.media.IsIndex() && Children(f, st, d).Ok?
    ensures Select(f, st, d, p, 0) == SelectKids(f, st, Children(f, st, d).value, p, 0)
  {
    hide Children, SelectKids;
  }

  /** Without the URL the same manifest is verified. */
  lemma PlainVerifies(st: Blobs)
    requires Four(st)
    ensures var x := Smuggled();
      Validate(x.f, st, x.image.(urls := []), 0, {}).result == Ok(2) && Validate(x.f, st, x.image.(urls := []), 0, {}).seen == {3, 4}
  {
    var x := Smuggled();
    var f := x.f;
    var plain, config := x.image.(urls := []), Descriptor(Other("application/vnd.oci.image.config.v1+json"), 4, 1, [], [], None, "");
    assert Acceptable(f, plain) && HasFile(f, st, plain) && Acceptable(f, config) && HasFile(f, st, config);
    assert f.hash(st[3].bytes) == 3 && f.hash(st[4].bytes) == 4 && Children(f, st, config) == Ok([]);
    assert ReadBlob(f, st, plain) == Ok([3]);
    assert Children(f, st, plain) == Ok([config]) by { assert [config] + [] == [config]; }
    LeafValidates(f, st, config, 1, {3});
    assert {3} + {4} == {3, 4} && {} + {3} == {3};
    hide Children, HasFile, Acceptable, ReadBlob;
    OneKid(f, st, plain, config);
  }

  lemma OneKid(f: Formats, st: Blobs, d: Descriptor, kid: Descriptor)
    requires Acceptable(f, d) && HasFile(f, st, d) && f.hash(st[d.digest].bytes) == d.digest && Children(f, st, d) == Ok([kid])
    requires Validate(f, st, kid, 1, {} + {d.digest}) == Visit(Ok(kid.size), {d.digest} + {kid.digest}, [kid]) && d.size + kid.size <= MAX_ARCHIVE
    ensures Validate(f, st, d, 0, {}).result == Ok(d.size + kid.size) && Validate(f, st, d, 0, {}).seen == {d.digest} + {kid.digest}
  {
    hide Children, HasFile, Acceptable;
    var v := ValidateKids(f, st, [kid], 0, {} + {d.digest}, d.size);
    assert Validate(f, st, d, 0, {}) == v.(visits := [d] + v.visits);
    hide Validate;
    assert [kid][1..] == [] && [kid][0] == kid;
    assert ValidateKids(f, st, [], 0, {d.digest} + {kid.digest}, d.size + kid.size).result == Ok(d.size + kid.size);
  }

  lemma SmuggledIsAdmitted(blobs: Blobs)
    requires Four(blobs)
    ensures var x := Smuggled();
      Admit(x.f, x.refs, blobs, x.root, "", x.p) == Ok(("name", C.Entry(x.root, map[x.p := x.image])))
  {
    SmuggledValidates(blobs);
    SmuggledIsSelected(blobs);
    hide Validate, Select;
  }

  /** The archive is accepted and prepares an image that validation refuses, so that Resolve fails. */
  lemma UrlsSlipIn()
    ensures var x := Smuggled();
      && Importable(x.f, x.refs, x.members, "", x.p)
      && Imported(x.f, x.refs, x.members, "", x.p, "name", C.Entry(x.root, map[x.p := x.image]))
      && OciGraphs.Agree(ReadAll(x.f, x.members).value.blobs, x.st, x.st.Keys)
      && Validate(x.f, x.st, x.image, 0, {}).result.Err?
  {
    var x := Smuggled();
    SmuggledIsRead();
    var s := ReadAll(x.f, x.members).value;
    SmuggledIsAdmitted(s.blobs);
    SmuggledRuns(s.blobs);
    assert !Acceptable(x.f, x.image);
    hide ReadAll, Admit, LayersOk, RunsOn, TarSize;
  }

  /** But once the same manifest was verified for an archive that refers to it without the URL, the cache answers for
      it: the two have the same key. */
  lemma CacheLetsThemIn()
    ensures var x := Smuggled();
      var plain, g := x.image.(urls := []), Graph(map[3 := 3, 4 := 4], 2);
      && Verifies(x.f, x.st, plain, 2) && KeyOf(plain) == KeyOf(x.image)
      && Honest(x.st, Stamped) && Justifies(x.f, Stamped, Origin(x.st, plain), KeyOf(x.image), g) && Fresh(x.st, g)
      && !Verifies(x.f, x.st, x.image, 2)
  {
    var x := Smuggled();
    SmuggledIsHonest(x.st);
    PlainVerifies(x.st);
    SmuggledRuns(x.st);
    assert !Acceptable(x.f, x.image);
    assert Validate(x.f, x.st, x.image, 0, {}).result.Err?;
    SmuggledIsHonest(x.st);
    hide Validate, LayersOk, RunsOn, Acceptable, Honest, Four;
    var g := Graph(map[3 := 3, 4 := 4], 2);
    assert g.files.Keys == {3, 4};
  }

  lemma SmuggledIsHonest(st: Blobs)
    requires st == Smuggled().st
    ensures Honest(st, Stamped) && Four(st) && Fresh(st, Graph(map[3 := 3, 4 := 4], 2))
    ensures forall h | h in {3, 4} :: h in st && st[h].stamp == h
  {
  }

  function Stamped(stamp: nat): (Bytes, bool) {
    (if stamp < 256 then [stamp] else [], true)
  }
}
