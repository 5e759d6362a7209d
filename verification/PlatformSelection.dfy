/** internal/images/graph.go, selectManifest: the first image of a graph that runs on a platform. */
module PlatformSelection {
  import opened Prelude
  import opened OciGraphs

  function Canonical(p: Platform): Platform {
    if (p.architecture == "arm64" && p.variant == "v8") || (p.architecture == "amd64" && p.variant == "v1")
    then p.(variant := "") else p
  }

  predicate SamePlatform(a: Platform, b: Platform) {
    var a', b' := Canonical(a), Canonical(b);
    a'.os == b'.os && a'.architecture == b'.architecture && a'.variant == b'.variant
  }

  /** Platforms are the same exactly when they have the same canonical form, which is its own canonical form: the
      default variants of arm64 and amd64 may be left out, and nothing else. */
  lemma SameIffCanonical(a: Platform, b: Platform)
    ensures SamePlatform(a, b) <==>
      && a.os == b.os && a.architecture == b.architecture
      && (a.variant == b.variant
          || (a.architecture == "arm64" && a.variant in {"", "v8"} && b.variant in {"", "v8"})
          || (a.architecture == "amd64" && a.variant in {"", "v1"} && b.variant in {"", "v1"}))
    ensures SamePlatform(a, b) <==> Canonical(a) == Canonical(b)
    ensures Canonical(Canonical(a)) == Canonical(a)
  {
  }

  /** An image manifest whose config is readable and says platform p. */
  predicate RunsOn(f: Formats, st: Blobs, d: Descriptor, p: Platform) {
    && d.media.IsImage()
    && var kids := Children(f, st, d);
    && kids.Ok? && kids.value != []
    && var b := ReadBlob(f, st, kids.value[0]);
    && b.Ok? && f.config(b.value).Some?
    && SamePlatform(f.config(b.value).value.platform, p)
  }

  /** An image whose first blob is a config for the platform. */
  ghost predicate IsImageFor(f: Formats, st: Blobs, d: Descriptor, p: Platform) {
    d.media.IsImage() && exists kids, b, c ::
      && Children(f, st, d) == Ok(kids) && |kids| > 0 && ReadBlob(f, st, kids[0]) == Ok(b) && f.config(b) == Some(c)
      && Canonical(c.platform) == Canonical(p)
  }

  lemma RunsOnIff(f: Formats, st: Blobs, d: Descriptor, p: Platform)
    ensures RunsOn(f, st, d, p) <==> IsImageFor(f, st, d, p)
  {
    if RunsOn(f, st, d, p) {
      var kids := Children(f, st, d).value;
      var b := ReadBlob(f, st, kids[0]).value;
      assert f.config(b) == Some(f.config(b).value);
    }
  }

  /** An index entry is tried unless it names another platform. */
  predicate Tried(d: Descriptor, p: Platform) {
    d.platform.None? || SamePlatform(d.platform.value, p)
  }

  function Select(f: Formats, st: Blobs, d: Descriptor, p: Platform, depth: nat): Result<Descriptor>
    decreases MAX_DEPTH + 1 - depth, 1, 0
  {
    if depth > MAX_DEPTH then Err(Invalid)
    else if d.media.IsIndex() then
      var kids := Children(f, st, d);
      if kids.Err? then Err(kids.error) else SelectKids(f, st, kids.value, p, depth)
    else if RunsOn(f, st, d, p) then Ok(d.(platform := Some(p)))
    else Err(Invalid)
  }

  function SelectKids(f: Formats, st: Blobs, kids: seq<Descriptor>, p: Platform, depth: nat): Result<Descriptor>
    requires depth <= MAX_DEPTH
    decreases MAX_DEPTH + 1 - depth, 0, |kids|
  {
    if kids == [] then Err(NotFound)
    else if Tried(kids[0], p) && Select(f, st, kids[0], p, depth + 1).Ok? then Select(f, st, kids[0], p, depth + 1)
    else SelectKids(f, st, kids[1..], p, depth)
  }

  /******* The reference definition: all images for p, in depth-first order *******/

  function Images(f: Formats, st: Blobs, d: Descriptor, p: Platform, depth: nat): seq<Descriptor>
    decreases MAX_DEPTH + 1 - depth, 1, 0
  {
    if depth > MAX_DEPTH then []
    else if d.media.IsIndex() then
      var kids := Children(f, st, d);
      if kids.Err? then [] else ImagesOf(f, st, kids.value, p, depth)
    else if RunsOn(f, st, d, p) then [d]
    else []
  }

  function ImagesOf(f: Formats, st: Blobs, kids: seq<Descriptor>, p: Platform, depth: nat): seq<Descriptor>
    requires depth <= MAX_DEPTH
    decreases MAX_DEPTH + 1 - depth, 0, |kids|
  {
    if kids == [] then []
    else (if Tried(kids[0], p) then Images(f, st, kids[0], p, depth + 1) else []) + ImagesOf(f, st, kids[1..], p, depth)
  }

  /** Selection returns the first of them, marked with the platform asked for, and fails only if there is none. */
  lemma {:induction false} SelectIsFirst(f: Formats, st: Blobs, d: Descriptor, p: Platform, depth: nat)
    ensures var images := Images(f, st, d, p, depth);
      && (Select(f, st, d, p, depth).Ok? <==> images != [])
      && (images != [] ==> Select(f, st, d, p, depth) == Ok(images[0].(platform := Some(p))))
    decreases MAX_DEPTH + 1 - depth, 1, 0
  {
    if depth <= MAX_DEPTH && d.media.IsIndex() && Children(f, st, d).Ok? {
      SelectKidsIsFirst(f, st, Children(f, st, d).value, p, depth);
    }
  }

  lemma {:induction false} SelectKidsIsFirst(f: Formats, st: Blobs, kids: seq<Descriptor>, p: Platform, depth: nat)
    requires depth <= MAX_DEPTH
    ensures var images := ImagesOf(f, st, kids, p, depth);
      && (SelectKids(f, st, kids, p, depth).Ok? <==> images != [])
      && (images != [] ==> SelectKids(f, st, kids, p, depth) == Ok(images[0].(platform := Some(p))))
    decreases MAX_DEPTH + 1 - depth, 0, |kids|
  {
    if kids != [] {
      SelectIsFirst(f, st, kids[0], p, depth + 1);
      SelectKidsIsFirst(f, st, kids[1..], p, depth);
    }
  }

  /** A way from an index to an image for p: every step goes to an entry that is tried. */
  predicate Leads(f: Formats, st: Blobs, path: seq<Descriptor>, p: Platform) {
    && path != []
    && if |path| == 1 then RunsOn(f, st, path[0], p)
       else path[0].media.IsIndex() && IsChild(f, st, path[1], path[0]) && Tried(path[1], p) && Leads(f, st, path[1..], p)
  }

  /** The images are exactly the ends of the ways from d that the nesting limit allows. */
  lemma {:induction false} ImagesAreReached(f: Formats, st: Blobs, d: Descriptor, p: Platform, depth: nat, e: Descriptor)
    ensures e in Images(f, st, d, p, depth) <==>
      exists path :: Leads(f, st, path, p) && path[0] == d && path[|path| - 1] == e && depth + |path| <= MAX_DEPTH + 1
    decreases MAX_DEPTH + 1 - depth, 1, 0
  {
    if e in Images(f, st, d, p, depth) {
      var path := ImageHasPath(f, st, d, p, depth, e);
      assert Leads(f, st, path, p);
    }
    forall path | Leads(f, st, path, p) && path[0] == d && path[|path| - 1] == e && depth + |path| <= MAX_DEPTH + 1
      ensures e in Images(f, st, d, p, depth)
    {
      PathHasImage(f, st, path, p, depth);
    }
  }

  lemma {:induction false} ImageHasPath(f: Formats, st: Blobs, d: Descriptor, p: Platform, depth: nat, e: Descriptor) returns (path: seq<Descriptor>)
    requires e in Images(f, st, d, p, depth)
    ensures path != [] && Leads(f, st, path, p) && path[0] == d && path[|path| - 1] == e && depth + |path| <= MAX_DEPTH + 1
    decreases MAX_DEPTH + 1 - depth, 1, 0
  {
    hide RunsOn, Children, Leads, Images, ImagesOf, IsChild, Tried;
    ImageIs(f, st, d, p, depth, e);
    if d.media.IsIndex() {
      var kid := ImageHasKid(f, st, Children(f, st, d).value, p, depth, e);
      var rest := ImageHasPath(f, st, kid, p, depth + 1, e);
      assert IsChild(f, st, kid, d) by { KidIsChild(f, st, kid, d); }
      Further(f, st, d, rest, p);
      path := [d] + rest;
    } else {
      Shortest(f, st, d, p);
      path := [d];
    }
  }

  lemma ImageIs(f: Formats, st: Blobs, d: Descriptor, p: Platform, depth: nat, e: Descriptor)
    requires e in Images(f, st, d, p, depth)
    ensures depth <= MAX_DEPTH
    ensures if d.media.IsIndex() then Children(f, st, d).Ok? && e in ImagesOf(f, st, Children(f, st, d).value, p, depth)
            else RunsOn(f, st, d, p) && e == d
  {
    hide RunsOn, Children, ImagesOf;
  }

  lemma KidIsChild(f: Formats, st: Blobs, kid: Descriptor, d: Descriptor)
    requires Children(f, st, d).Ok? && kid in Children(f, st, d).value
    ensures IsChild(f, st, kid, d)
  {
  }

  lemma Shortest(f: Formats, st: Blobs, d: Descriptor, p: Platform)
    requires RunsOn(f, st, d, p)
    ensures Leads(f, st, [d], p)
  {
  }

  /** A way begins one step earlier. */
  lemma Further(f: Formats, st: Blobs, d: Descriptor, path: seq<Descriptor>, p: Platform)
    requires Leads(f, st, path, p) && d.media.IsIndex() && IsChild(f, st, path[0], d) && Tried(path[0], p)
    ensures var longer := [d] + path; Leads(f, st, longer, p) && longer[0] == d && longer[|longer| - 1] == path[|path| - 1]
  {
    hide RunsOn, IsChild, Tried;
    assert ([d] + path)[1..] == path;
  }

  lemma {:induction false} ImageHasKid(f: Formats, st: Blobs, kids: seq<Descriptor>, p: Platform, depth: nat, e: Descriptor) returns (kid: Descriptor)
    requires depth <= MAX_DEPTH && e in ImagesOf(f, st, kids, p, depth)
    ensures kid in kids && Tried(kid, p) && e in Images(f, st, kid, p, depth + 1)
    decreases MAX_DEPTH + 1 - depth, 0, |kids|
  {
    if Tried(kids[0], p) && e in Images(f, st, kids[0], p, depth + 1) {
      kid := kids[0];
    } else {
      kid := ImageHasKid(f, st, kids[1..], p, depth, e);
    }
  }

  lemma {:induction false} PathHasImage(f: Formats, st: Blobs, path: seq<Descriptor>, p: Platform, depth: nat)
    requires Leads(f, st, path, p) && depth + |path| <= MAX_DEPTH + 1
    ensures path[|path| - 1] in Images(f, st, path[0], p, depth)
    decreases |path|
  {
    hide Children;
    if |path| > 1 {
      var rest := path[1..];
      PathHasImage(f, st, rest, p, depth + 1);
      KidHasImages(f, st, Children(f, st, path[0]).value, p, depth, path[1], path[|path| - 1]);
    }
  }

  lemma {:induction false} KidHasImages(f: Formats, st: Blobs, kids: seq<Descriptor>, p: Platform, depth: nat, kid: Descriptor, e: Descriptor)
    requires depth <= MAX_DEPTH && kid in kids && Tried(kid, p) && e in Images(f, st, kid, p, depth + 1)
    ensures e in ImagesOf(f, st, kids, p, depth)
    decreases |kids|
  {
    if kids[0] != kid {
      KidHasImages(f, st, kids[1..], p, depth, kid, e);
    }
  }

  /** The loop over the entries of an index. */
  method SelectManifest(f: Formats, st: Blobs, d: Descriptor, p: Platform, depth: nat) returns (r: Result<Descriptor>)
    ensures r.Ok? <==> Images(f, st, d, p, depth) != []
    ensures r.Ok? ==> r.value == Images(f, st, d, p, depth)[0].(platform := Some(p)) && IsImageFor(f, st, Images(f, st, d, p, depth)[0], p)
    decreases MAX_DEPTH + 1 - depth
  {
    if depth > MAX_DEPTH {
      return Err(Invalid);
    }
    if d.media.IsIndex() {
      var kids := Children(f, st, d);
      if kids.Err? {
        return Err(kids.error);
      }
      for i := 0 to |kids.value|
        invariant ImagesOf(f, st, kids.value[i..], p, depth) == Images(f, st, d, p, depth)
      {
        assert kids.value[i..][0] == kids.value[i] && kids.value[i..][1..] == kids.value[i + 1..];
        if kids.value[i].platform.Some? && !SamePlatform(kids.value[i].platform.value, p) {
          continue;
        }
        var selected := SelectManifest(f, st, kids.value[i], p, depth + 1);
        if selected.Ok? {
          return selected;
        }
      }
      return Err(NotFound);
    }
    RunsOnIff(f, st, d, p);
    if !RunsOn(f, st, d, p) {
      return Err(Invalid);
    }
    return Ok(d.(platform := Some(p)));
  }
}
