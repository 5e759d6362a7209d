/** internal/images/layers.go: the expanded layers of an image have the identities that its config lists, and fit
    the disk budget together. */
module OciLayers {
  import opened Prelude
  import opened OciGraphs

  /** The whole decoded layer, if its file is there and its compression is known. */
  function Expanded(f: Formats, st: Blobs, d: Descriptor): Option<Bytes> {
    if !f.valid(d.digest) || d.digest !in st || f.compression(d.media).Unsupported? then None
    else f.decode(f.compression(d.media), st[d.digest].bytes)
  }

  function ExpandedSize(f: Formats, st: Blobs, layers: seq<Descriptor>): (n: nat) {
    if layers == [] then 0
    else ExpandedSize(f, st, layers[..|layers| - 1]) + Size(Expanded(f, st, layers[|layers| - 1]))
  }

  function Size(b: Option<Bytes>): nat {
    if b.Some? then |b.value| else 0
  }

  ghost predicate LayersOk(f: Formats, st: Blobs, d: Descriptor) {
    var b := ReadBlob(f, st, d);
    && b.Ok? && f.manifest(b.value).Some?
    && var m := f.manifest(b.value).value;
    && var c := ReadBlob(f, st, m.config);
    && c.Ok? && f.config(c.value).Some?
    && var cfg := f.config(c.value).value;
    && cfg.rootfs == "layers" && |cfg.diffIds| == |m.layers|
    && (forall i | 0 <= i < |m.layers| ::
          Expanded(f, st, m.layers[i]).Some? && f.hash(Expanded(f, st, m.layers[i]).value) == cfg.diffIds[i])
    && ExpandedSize(f, st, m.layers) <= MAX_ARCHIVE
  }

  lemma {:induction false} SizeGrows(f: Formats, st: Blobs, layers: seq<Descriptor>, i: nat)
    requires i <= |layers|
    ensures ExpandedSize(f, st, layers[..i]) <= ExpandedSize(f, st, layers)
    decreases |layers|
  {
    if i < |layers| {
      SizeGrows(f, st, layers[..|layers| - 1], i);
      assert layers[..|layers| - 1][..i] == layers[..i];
    } else {
      assert layers[..i] == layers;
    }
  }

  /** The decreasing budget accepts exactly the images whose layers fit together. */
  method ValidateLayers(f: Formats, st: Blobs, d: Descriptor) returns (r: Result<()>)
    ensures r.Ok? <==> LayersOk(f, st, d)
  {
    var b := ReadBlob(f, st, d);
    if b.Err? {
      return Err(b.error);
    }
    var manifest := f.manifest(b.value);
    if manifest.None? {
      return Err(Invalid);
    }
    var c := ReadBlob(f, st, manifest.value.config);
    if c.Err? {
      return Err(c.error);
    }
    var config := f.config(c.value);
    if config.None? {
      return Err(Invalid);
    }
    var layers, diffIds := manifest.value.layers, config.value.diffIds;
    if config.value.rootfs != "layers" || |diffIds| != |layers| {
      return Err(Invalid);
    }
    var remaining: int := MAX_ARCHIVE;
    for i := 0 to |layers|
      invariant 0 <= remaining == MAX_ARCHIVE - ExpandedSize(f, st, layers[..i])
      invariant forall j | 0 <= j < i ::
        Expanded(f, st, layers[j]).Some? && f.hash(Expanded(f, st, layers[j]).value) == diffIds[j]
    {
      assert layers[..i + 1][..i] == layers[..i];
      SizeGrows(f, st, layers, i + 1);
      var layer := layers[i];
      if !f.valid(layer.digest) || layer.digest !in st {
        return Err(NotFound);
      }
      var compression := f.compression(layer.media);
      if compression.Unsupported? {
        return Err(Invalid);
      }
      var expanded := f.decode(compression, st[layer.digest].bytes);
      if expanded.None? {
        return Err(Invalid);
      }
      // One byte more than the budget is read.
      var n := if |expanded.value| > remaining then remaining + 1 else |expanded.value|;
      if n > remaining {
        return Err(Invalid);
      }
      remaining := remaining - n;
      if f.hash(expanded.value) != diffIds[i] {
        return Err(Mismatch);
      }
    }
    assert layers[..|layers|] == layers;
    return Ok(());
  }

  /** The validation of an image marks its manifest, its config and its layers. */
  lemma ImageMarks(f: Formats, st: Blobs, d: Descriptor)
    requires d.media.IsImage() && Validate(f, st, d, 0, {}).result.Ok?
    ensures ReadBlob(f, st, d).Ok? && f.manifest(ReadBlob(f, st, d).value).Some?
    ensures var m, seen := f.manifest(ReadBlob(f, st, d).value).value, Validate(f, st, d, 0, {}).seen;
      d.digest in seen && m.config.digest in seen && forall l <- m.layers :: l.digest in seen
  {
    var m := f.manifest(ReadBlob(f, st, d).value).value;
    var kids := [m.config] + m.layers;
    assert Children(f, st, d) == Ok(kids);
    ValidatedAccountsKids(f, st, kids, 0, {} + {d.digest}, d.size);
    hide ValidateKids, Accounts, ReadBlob, HasFile;
    assert m.config == kids[0];
    forall l | l in m.layers ensures l in kids {
    }
  }

  /** The layers of a validated image depend on the files that its validation marked. */
  lemma LayersLocal(f: Formats, st: Blobs, st': Blobs, d: Descriptor)
    requires d.media.IsImage() && Validate(f, st, d, 0, {}).result.Ok? && Agree(st, st', Validate(f, st, d, 0, {}).seen)
    ensures LayersOk(f, st, d) <==> LayersOk(f, st', d)
  {
    ImageMarks(f, st, d);
    hide Validate;
    var m := f.manifest(ReadBlob(f, st, d).value).value;
    assert ReadBlob(f, st', d) == ReadBlob(f, st, d) && ReadBlob(f, st', m.config) == ReadBlob(f, st, m.config);
    hide ReadBlob;
    SameExpanded(f, st, st', m.layers);
  }

  /** Annotations and platform do not matter to validation; URLs and embedded data do. */
  lemma SameReference(f: Formats, st: Blobs, d: Descriptor, d': Descriptor)
    requires d'.digest == d.digest && d'.size == d.size && d'.media == d.media && Acceptable(f, d) && Acceptable(f, d')
    ensures Validate(f, st, d', 0, {}).result == Validate(f, st, d, 0, {}).result
    ensures Validate(f, st, d', 0, {}).seen == Validate(f, st, d, 0, {}).seen
    ensures Children(f, st, d') == Children(f, st, d)
    ensures LayersOk(f, st, d') <==> LayersOk(f, st, d)
  {
    hide ValidateKids;
    assert Children(f, st, d') == Children(f, st, d) && ReadBlob(f, st, d') == ReadBlob(f, st, d);
    hide Children, ReadBlob;
    assert HasFile(f, st, d') == HasFile(f, st, d);
    hide Acceptable, HasFile;
  }

  lemma {:induction false} SameExpanded(f: Formats, st: Blobs, st': Blobs, layers: seq<Descriptor>)
    requires forall l <- layers :: l.digest in st && l.digest in st' && st'[l.digest].bytes == st[l.digest].bytes
    ensures forall i | 0 <= i < |layers| :: Expanded(f, st', layers[i]) == Expanded(f, st, layers[i])
    ensures ExpandedSize(f, st', layers) == ExpandedSize(f, st, layers)
  {
    if layers != [] {
      SameExpanded(f, st, st', layers[..|layers| - 1]);
      assert layers[|layers| - 1] in layers;
    }
  }
}
