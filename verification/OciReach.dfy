/** What a validated graph says about everything that can be reached in it, and what follows for its parts and for
    several graphs that share blobs. */
module OciReach {
  import opened Prelude
  import opened OciGraphs
  import opened OciWalks

  /******* The size of a set of blobs *******/

  ghost function Weight(st: Blobs, marks: set<Digest>): nat
    requires marks <= st.Keys
  {
    if marks == {} then 0
    else
      var h :| h in marks;
      |st[h].bytes| + Weight(st, marks - {h})
  }

  lemma {:induction false} WeightOf(st: Blobs, marks: set<Digest>, h: Digest)
    requires marks <= st.Keys && h in marks
    ensures Weight(st, marks) == |st[h].bytes| + Weight(st, marks - {h})
    decreases marks
  {
    var g :| g in marks && Weight(st, marks) == |st[g].bytes| + Weight(st, marks - {g});
    if g != h {
      WeightOf(st, marks - {g}, h);
      WeightOf(st, marks - {h}, g);
      assert marks - {g} - {h} == marks - {h} - {g};
    }
  }

  lemma WeightAdd(st: Blobs, marks: set<Digest>, h: Digest)
    requires marks <= st.Keys && h in st && h !in marks
    ensures Weight(st, marks + {h}) == Weight(st, marks) + |st[h].bytes|
  {
    WeightOf(st, marks + {h}, h);
    assert marks + {h} - {h} == marks;
  }

  lemma {:induction false} WeightGrows(st: Blobs, some: set<Digest>, all: set<Digest>)
    requires some <= all <= st.Keys
    ensures Weight(st, some) <= Weight(st, all)
    decreases all
  {
    if some != all {
      var h :| h in all && h !in some;
      WeightOf(st, all, h);
      WeightGrows(st, some, all - {h});
    }
  }

  /******* Everything that can be reached in a consistent graph is sound *******/

  /** What a validation checks about the children of what it entered, marked or not. */
  ghost predicate Checks(f: Formats, st: Blobs, visits: seq<Descriptor>) {
    forall v <- visits :: forall k | IsChild(f, st, k, v) :: Acceptable(f, k) && HasFile(f, st, k)
  }

  lemma {:induction false} ValidatedChecks(f: Formats, st: Blobs, d: Descriptor, depth: nat, seen: set<Digest>)
    requires Validate(f, st, d, depth, seen).result.Ok?
    ensures Checks(f, st, Validate(f, st, d, depth, seen).visits) && Acceptable(f, d) && HasFile(f, st, d)
    decreases MAX_DEPTH + 1 - depth, 1, 0
  {
    if d.digest !in seen {
      ValidatedChecksKids(f, st, Children(f, st, d).value, depth, seen + {d.digest}, d.size);
      hide Acceptable, HasFile, Children;
    }
  }

  lemma {:induction false} ValidatedChecksKids(f: Formats, st: Blobs, kids: seq<Descriptor>, depth: nat, seen: set<Digest>, total: int)
    requires depth <= MAX_DEPTH && ValidateKids(f, st, kids, depth, seen, total).result.Ok?
    ensures Checks(f, st, ValidateKids(f, st, kids, depth, seen, total).visits)
    ensures forall k <- kids :: Acceptable(f, k) && HasFile(f, st, k)
    decreases MAX_DEPTH + 1 - depth, 0, |kids|
  {
    hide Acceptable, HasFile, Children, Validate;
    if kids != [] {
      var first := Validate(f, st, kids[0], depth + 1, seen);
      ValidatedChecks(f, st, kids[0], depth + 1, seen);
      ValidatedChecksKids(f, st, kids[1..], depth, first.seen, total + first.result.value);
    }
  }

  /** In a consistent graph that validates, every reference is sound, also those that were skipped because their digest
      was marked. */
  lemma ReachableIsSound(f: Formats, st: Blobs, d: Descriptor, e: Descriptor)
    requires Validate(f, st, d, 0, {}).result.Ok? && Consistent(f, st, d) && Reachable(f, st, d, e)
    ensures Sound(f, st, e) && e.digest in Validate(f, st, d, 0, {}).seen
  {
    var v := Validate(f, st, d, 0, {});
    ValidatedChecks(f, st, d, 0, {});
    ValidatedAccounts(f, st, d, 0, {});
    CompleteIffConsistent(f, st, d);
    hide Validate, Sound, Consistent, Checks, Entered, Digests, Acceptable, HasFile, Reachable;
    ReachableIsChecked(f, st, d, e, v.visits);
    EnteredIsSound(f, st, v.visits, e);
  }

  lemma ReachableIsChecked(f: Formats, st: Blobs, d: Descriptor, e: Descriptor, visits: seq<Descriptor>)
    requires Complete(f, st, d, visits) && Checks(f, st, visits) && Reachable(f, st, d, e)
    requires Acceptable(f, d) && HasFile(f, st, d)
    ensures Acceptable(f, e) && HasFile(f, st, e) && Entered(f, st, visits, e)
  {
    hide Children, Acceptable, HasFile;
    var path :| Path(f, st, path) && path[0] == d && path[|path| - 1] == e;
    if |path| > 1 {
      var p := path[|path| - 2];
      ReachPrefix(f, st, path);
      assert IsChild(f, st, e, p);
      var x :| x in visits && x.digest == p.digest && Children(f, st, x) == Children(f, st, p);
      assert IsChild(f, st, e, x);
    }
  }

  lemma ReachPrefix(f: Formats, st: Blobs, path: seq<Descriptor>)
    requires Path(f, st, path) && |path| > 1
    ensures Reachable(f, st, path[0], path[|path| - 2])
  {
    var some := path[..|path| - 1];
    assert Path(f, st, some) && some[0] == path[0] && some[|some| - 1] == path[|path| - 2];
  }

  lemma EnteredIsSound(f: Formats, st: Blobs, visits: seq<Descriptor>, e: Descriptor)
    requires Entered(f, st, visits, e) && (forall x <- visits :: Sound(f, st, x)) && Acceptable(f, e) && HasFile(f, st, e)
    ensures Sound(f, st, e) && e.digest in Digests(visits)
  {
    hide Children, Acceptable;
  }

  /******* A sound graph validates *******/

  /** No way from d is longer than n steps. */
  ghost predicate Shallow(f: Formats, st: Blobs, d: Descriptor, n: nat) {
    forall path | Path(f, st, path) && path[0] == d :: |path| <= n + 1
  }

  ghost predicate AllSound(f: Formats, st: Blobs, d: Descriptor) {
    forall e | Reachable(f, st, d, e) :: Sound(f, st, e)
  }

  lemma ChildIsShallow(f: Formats, st: Blobs, d: Descriptor, kid: Descriptor, n: nat)
    requires Shallow(f, st, d, n) && IsChild(f, st, kid, d)
    ensures n > 0 && Shallow(f, st, kid, n - 1)
  {
    assert Path(f, st, [d, kid]) && [d, kid][0] == d;
    forall path | Path(f, st, path) && path[0] == kid ensures |path| <= n {
      var longer := [d] + path;
      assert Path(f, st, longer) && longer[0] == d;
    }
  }

  lemma ChildIsSound(f: Formats, st: Blobs, d: Descriptor, kid: Descriptor)
    requires AllSound(f, st, d) && IsChild(f, st, kid, d)
    ensures AllSound(f, st, kid)
  {
    hide Sound, Reachable;
    forall e | Reachable(f, st, kid, e) ensures Sound(f, st, e) {
      ReachNext(f, st, d, kid, e);
    }
  }

  /** The store is within the limits of one validation. */
  ghost predicate FitsLimits(st: Blobs) {
    |st| <= MAX_BLOBS && Weight(st, st.Keys) <= MAX_ARCHIVE
  }

  /** A walk has counted no more than it has marked. */
  ghost predicate Counts(st: Blobs, seen: set<Digest>, v: Visit, base: int) {
    && v.result.Ok? && seen <= v.seen <= st.Keys
    && v.result.value + Weight(st, seen) == base + Weight(st, v.seen)
  }

  lemma {:induction false} SoundValidates(f: Formats, st: Blobs, d: Descriptor, depth: nat, seen: set<Digest>)
    requires AllSound(f, st, d) && depth <= MAX_DEPTH && Shallow(f, st, d, MAX_DEPTH - depth)
    requires FitsLimits(st) && seen <= st.Keys
    ensures Counts(st, seen, Validate(f, st, d, depth, seen), 0)
    decreases MAX_DEPTH + 1 - depth, 1, 0
  {
    ReachSelf(f, st, d);
    assert Sound(f, st, d);
    Fewer(st, seen);
    hide AllSound, Shallow, Reachable, FitsLimits, Acceptable, Weight;
    if d.digest !in seen {
      var kids := Children(f, st, d).value;
      forall k | k in kids ensures AllSound(f, st, k) && (depth < MAX_DEPTH && Shallow(f, st, k, MAX_DEPTH - depth - 1)) {
        assert IsChild(f, st, k, d);
        ChildIsSound(f, st, d, k);
        ChildIsShallow(f, st, d, k, MAX_DEPTH - depth);
      }
      WeightAdd(st, seen, d.digest);
      hide Children;
      SoundValidatesKids(f, st, kids, depth, seen + {d.digest}, d.size);
    }
  }

  lemma Fewer(st: Blobs, seen: set<Digest>)
    requires seen <= st.Keys && FitsLimits(st)
    ensures |seen| <= MAX_BLOBS
  {
    assert st.Keys == seen + (st.Keys - seen);
    assert |st.Keys| == |st|;
  }

  lemma {:induction false} SoundValidatesKids(f: Formats, st: Blobs, kids: seq<Descriptor>, depth: nat, seen: set<Digest>, total: int)
    requires depth <= MAX_DEPTH && FitsLimits(st) && seen <= st.Keys && total <= Weight(st, seen)
    requires forall k <- kids :: AllSound(f, st, k) && depth < MAX_DEPTH && Shallow(f, st, k, MAX_DEPTH - depth - 1)
    ensures Counts(st, seen, ValidateKids(f, st, kids, depth, seen, total), total)
    decreases MAX_DEPTH + 1 - depth, 0, |kids|
  {
    hide AllSound, Shallow, Validate, Weight;
    if kids != [] {
      SoundValidates(f, st, kids[0], depth + 1, seen);
      var first := Validate(f, st, kids[0], depth + 1, seen);
      WeightGrows(st, first.seen, st.Keys);
      SoundValidatesKids(f, st, kids[1..], depth, first.seen, total + first.result.value);
    }
  }

  /** Within the limits, a consistent graph validates exactly if all its references are sound. */
  lemma ValidatesIffSound(f: Formats, st: Blobs, d: Descriptor)
    requires FitsLimits(st) && Shallow(f, st, d, MAX_DEPTH) && Consistent(f, st, d)
    ensures Validate(f, st, d, 0, {}).result.Ok? <==> AllSound(f, st, d)
  {
    hide Validate, Shallow, Consistent, Sound, Reachable, FitsLimits;
    if Validate(f, st, d, 0, {}).result.Ok? {
      forall e | Reachable(f, st, d, e) ensures Sound(f, st, e) {
        ReachableIsSound(f, st, d, e);
      }
    }
    if AllSound(f, st, d) {
      SoundValidates(f, st, d, 0, {});
    }
  }

  /** A part of a consistent graph that validates, validates by itself. */
  lemma PartValidates(f: Formats, st: Blobs, d: Descriptor, e: Descriptor)
    requires Validate(f, st, d, 0, {}).result.Ok? && Consistent(f, st, d) && Reachable(f, st, d, e)
    requires FitsLimits(st) && Shallow(f, st, e, MAX_DEPTH)
    ensures Validate(f, st, e, 0, {}).result.Ok? && AllSound(f, st, e)
  {
    hide Validate, Shallow, Consistent, Sound, FitsLimits;
    forall x | Reachable(f, st, e, x) ensures Sound(f, st, x) {
      ReachOn(f, st, d, e, x);
      ReachableIsSound(f, st, d, x);
    }
    SoundValidates(f, st, e, 0, {});
  }

  lemma ReachOn(f: Formats, st: Blobs, d: Descriptor, e: Descriptor, x: Descriptor)
    requires Reachable(f, st, d, e) && Reachable(f, st, e, x)
    ensures Reachable(f, st, d, x)
  {
    var a :| Path(f, st, a) && a[0] == d && a[|a| - 1] == e;
    var b :| Path(f, st, b) && b[0] == e && b[|b| - 1] == x;
    var path := a + b[1..];
    forall i | 0 < i < |path| ensures IsChild(f, st, path[i], path[i - 1]) {
      if i >= |a| {
        assert path[i] == b[i - |a| + 1] && path[i - 1] == b[i - |a|];
      }
    }
    assert Path(f, st, path) && path[0] == d && path[|path| - 1] == x;
  }

  /** An image whose config and layers are plain blobs is shallow. */
  lemma FlatIsShallow(f: Formats, st: Blobs, d: Descriptor)
    requires Children(f, st, d).Ok? ==> forall k <- Children(f, st, d).value :: !k.media.IsIndex() && !k.media.IsImage()
    ensures Shallow(f, st, d, MAX_DEPTH)
  {
    assert forall k | IsChild(f, st, k, d) :: Children(f, st, k) == Ok([]);
    hide Path, Children;
    forall path | Path(f, st, path) && path[0] == d ensures |path| <= 2 {
      if |path| > 2 {
        PathStep(f, st, path, 1);
        PathStep(f, st, path, 2);
      }
    }
  }

  lemma PathStep(f: Formats, st: Blobs, path: seq<Descriptor>, i: nat)
    requires path != [] && Path(f, st, path) && 0 < i < |path|
    ensures IsChild(f, st, path[i], path[i - 1])
    ensures Children(f, st, path[i - 1]) != Ok([])
  {
    assert IsChild(f, st, path[i], path[i - 1]);
  }

  /******* Several graphs that share blobs *******/

  /** No digest is referred to as two different things, in all these graphs together. */
  ghost predicate Jointly(f: Formats, st: Blobs, ds: seq<Descriptor>) {
    forall a, b, x, y | a in ds && b in ds && Reachable(f, st, a, x) && Reachable(f, st, b, y) && x.digest == y.digest ::
      Children(f, st, x) == Children(f, st, y)
  }

  lemma JointlyEach(f: Formats, st: Blobs, ds: seq<Descriptor>, d: Descriptor)
    requires Jointly(f, st, ds) && d in ds
    ensures Consistent(f, st, d)
  {
    hide Reachable, Children;
  }

  /** A walk that starts with marks of others: it counts what it marks, marks only what can be reached, and goes into
      everything it marks. */
  ghost predicate Covers(f: Formats, st: Blobs, seen: set<Digest>, v: Visit, base: int) {
    Counts(st, seen, v, base) && v.seen == seen + Digests(v.visits) && Explores(f, st, v.visits, v.seen)
  }

  lemma {:induction false} WalkCovers(f: Formats, st: Blobs, d: Descriptor, seen: set<Digest>)
    requires AllSound(f, st, d) && seen <= st.Keys
    ensures var v := Walk(f, st, d, seen, false);
      Covers(f, st, seen, v, 0) && d.digest in v.seen && forall x <- v.visits :: Reachable(f, st, d, x)
    decreases Unmarked(st, seen), 0, 0
  {
    ReachSelf(f, st, d);
    assert Sound(f, st, d);
    SoundFile(f, st, d);
    WalkEnters(f, st, d, seen);
    hide AllSound, Reachable, Sound, Unmarked, Covers, Weight, Walk, WalkKids;
    if d.digest in seen {
      CoversNothing(f, st, seen, 0);
    } else {
      var kids := Children(f, st, d).value;
      Enters(st, seen, d.digest);
      forall k | k in kids ensures AllSound(f, st, k) && IsChild(f, st, k, d) {
        assert IsChild(f, st, k, d);
        ChildIsSound(f, st, d, k);
      }
      hide Children;
      WalkCoversKids(f, st, kids, seen + {d.digest}, d.size);
      CoversEnter(f, st, seen, d, WalkKids(f, st, kids, seen + {d.digest}, false, d.size));
      forall x, k | k in kids && Reachable(f, st, k, x) ensures Reachable(f, st, d, x) {
        ReachNext(f, st, d, k, x);
      }
    }
  }

  /** One step of a walk. */
  lemma WalkEnters(f: Formats, st: Blobs, d: Descriptor, seen: set<Digest>)
    requires Children(f, st, d).Ok?
    ensures Walk(f, st, d, seen, false) ==
      if d.digest in seen then Visit(Ok(0), seen, [])
      else var v := WalkKids(f, st, Children(f, st, d).value, seen + {d.digest}, false, d.size); v.(visits := [d] + v.visits)
  {
    hide Children, Unmarked;
    assert [d] + [] == [d];
  }

  lemma SoundFile(f: Formats, st: Blobs, d: Descriptor)
    requires Sound(f, st, d)
    ensures d.digest in st && |st[d.digest].bytes| == d.size && Children(f, st, d).Ok?
  {
  }

  lemma CoversNothing(f: Formats, st: Blobs, seen: set<Digest>, total: int)
    requires seen <= st.Keys
    ensures Covers(f, st, seen, Visit(Ok(total), seen, []), total)
  {
    assert Digests([]) == {};
  }

  lemma CoversEnter(f: Formats, st: Blobs, seen: set<Digest>, d: Descriptor, v: Visit)
    requires seen <= st.Keys && d.digest in st && d.digest !in seen && |st[d.digest].bytes| == d.size
    requires Covers(f, st, seen + {d.digest}, v, d.size) && Children(f, st, d).Ok?
    requires forall k <- Children(f, st, d).value :: k.digest in v.seen
    ensures Covers(f, st, seen, v.(visits := [d] + v.visits), 0)
  {
    WeightAdd(st, seen, d.digest);
    hide Children, Weight;
    assert Digests([d] + v.visits) == {d.digest} + Digests(v.visits);
  }

  lemma {:induction false} WalkCoversKids(f: Formats, st: Blobs, kids: seq<Descriptor>, seen: set<Digest>, total: int)
    requires seen <= st.Keys && forall k <- kids :: AllSound(f, st, k)
    ensures var v := WalkKids(f, st, kids, seen, false, total);
      && Covers(f, st, seen, v, total)
      && (forall k <- kids :: k.digest in v.seen)
      && forall x <- v.visits :: exists k :: k in kids && Reachable(f, st, k, x)
    decreases Unmarked(st, seen), 1, |kids|
  {
    hide AllSound, Reachable, Covers, Unmarked, Walk;
    if kids == [] {
      CoversNothing(f, st, seen, total);
    } else {
      WalkCovers(f, st, kids[0], seen);
      var first := Walk(f, st, kids[0], seen, false);
      Shrinks(st, seen, first.seen);
      CoversMeans(f, st, seen, first, 0);
      var rest := WalkKids(f, st, kids[1..], first.seen, false, total + first.result.value);
      WalkCoversKids(f, st, kids[1..], first.seen, total + first.result.value);
      CoversConcat(f, st, seen, first, rest, total);
      forall x | x in first.visits + rest.visits ensures exists k :: k in kids && Reachable(f, st, k, x) {
        if x in first.visits {
          assert kids[0] in kids;
        } else {
          var k :| k in kids[1..] && Reachable(f, st, k, x);
          assert k in kids;
        }
      }
    }
  }

  lemma CoversMeans(f: Formats, st: Blobs, seen: set<Digest>, v: Visit, base: int)
    requires Covers(f, st, seen, v, base)
    ensures v.result.Ok? && seen <= v.seen <= st.Keys
  {
  }

  lemma CoversConcat(f: Formats, st: Blobs, seen: set<Digest>, first: Visit, rest: Visit, total: int)
    requires Covers(f, st, seen, first, 0) && Covers(f, st, first.seen, rest, total + first.result.value)
    ensures Covers(f, st, seen, rest.(visits := first.visits + rest.visits), total)
  {
    hide Children, Weight, IsChild;
    assert Digests(first.visits + rest.visits) == Digests(first.visits) + Digests(rest.visits);
  }

  /** Whatever of these graphs is marked, its children are marked as well. */
  ghost predicate Closed(f: Formats, st: Blobs, ds: seq<Descriptor>, seen: set<Digest>) {
    forall a, x, k | a in ds && Reachable(f, st, a, x) && x.digest in seen && IsChild(f, st, k, x) :: k.digest in seen
  }

  lemma WalkCloses(f: Formats, st: Blobs, ds: seq<Descriptor>, d: Descriptor, seen: set<Digest>, v: Visit)
    requires Jointly(f, st, ds) && d in ds && Closed(f, st, ds, seen)
    requires v.seen == seen + Digests(v.visits) && Explores(f, st, v.visits, v.seen)
    requires forall x <- v.visits :: Reachable(f, st, d, x)
    ensures Closed(f, st, ds, v.seen)
  {
    hide Reachable, Children, Jointly;
    forall a, x, k | a in ds && Reachable(f, st, a, x) && x.digest in v.seen && IsChild(f, st, k, x) ensures k.digest in v.seen {
      if x.digest !in seen {
        var y :| y in v.visits && y.digest == x.digest;
        assert Children(f, st, y) == Children(f, st, x) by { hide *; JointlySame(f, st, ds, d, a, y, x); }
        assert IsChild(f, st, k, y);
      }
    }
  }

  lemma JointlySame(f: Formats, st: Blobs, ds: seq<Descriptor>, a: Descriptor, b: Descriptor, x: Descriptor, y: Descriptor)
    requires Jointly(f, st, ds) && a in ds && b in ds && Reachable(f, st, a, x) && Reachable(f, st, b, y) && x.digest == y.digest
    ensures Children(f, st, x) == Children(f, st, y)
  {
    hide Reachable, Children;
  }

  /** A closed marking that has marked d has marked everything below it. */
  lemma {:induction false} ClosedReaches(f: Formats, st: Blobs, ds: seq<Descriptor>, seen: set<Digest>, path: seq<Descriptor>)
    requires Closed(f, st, ds, seen) && Path(f, st, path) && path[0] in ds && path[0].digest in seen
    ensures path[|path| - 1].digest in seen
    decreases |path|
  {
    hide Children;
    if |path| > 1 {
      var some := path[..|path| - 1];
      ClosedReaches(f, st, ds, seen, some);
      ReachPrefix(f, st, path);
      assert IsChild(f, st, path[|path| - 1], path[|path| - 2]);
    }
  }

  /** What a validation marks of a consistent graph is what can be reached in it. */
  lemma MarksAreReachable(f: Formats, st: Blobs, d: Descriptor, h: Digest)
    requires Validate(f, st, d, 0, {}).result.Ok? && Consistent(f, st, d)
    ensures h in Validate(f, st, d, 0, {}).seen <==> exists e :: Reachable(f, st, d, e) && e.digest == h
  {
    ValidatedExplores(f, st, d, 0, {});
    OneGraph(f, st, d);
    forall e | Reachable(f, st, d, e) ensures e.digest in Validate(f, st, d, 0, {}).seen {
      ReachableIsSound(f, st, d, e);
    }
    hide Validate, Walk, Collect, Reachable, Consistent;
  }

  /** The digests of the validated graphs, together. */
  ghost function Union(f: Formats, st: Blobs, ds: seq<Descriptor>): set<Digest> {
    if ds == [] then {} else Union(f, st, ds[..|ds| - 1]) + Validate(f, st, ds[|ds| - 1], 0, {}).seen
  }

  /** After one more walk the marks are those of one more graph. */
  lemma WalkUnites(f: Formats, st: Blobs, ds: seq<Descriptor>, d: Descriptor, seen: set<Digest>)
    requires Jointly(f, st, ds) && d in ds && Closed(f, st, ds, seen) && seen <= st.Keys
    requires Validate(f, st, d, 0, {}).result.Ok?
    ensures var v := Walk(f, st, d, seen, false);
      && Counts(st, seen, v, 0) && v.seen == seen + Validate(f, st, d, 0, {}).seen && Closed(f, st, ds, v.seen)
  {
    var v, w := Walk(f, st, d, seen, false), Validate(f, st, d, 0, {});
    JointlyEach(f, st, ds, d);
    forall e | Reachable(f, st, d, e) ensures Sound(f, st, e) {
      ReachableIsSound(f, st, d, e);
    }
    WalkCovers(f, st, d, seen);
    WalkCloses(f, st, ds, d, seen, v);
    forall h ensures h in w.seen <==> exists e :: Reachable(f, st, d, e) && e.digest == h {
      MarksAreReachable(f, st, d, h);
    }
    forall e | Reachable(f, st, d, e) ensures e.digest in v.seen {
      var path :| Path(f, st, path) && path[0] == d && path[|path| - 1] == e;
      ClosedReaches(f, st, ds, v.seen, path);
    }
    hide Validate, Walk, Reachable, Jointly, Closed, Explores, AllSound, Sound;
    assert v.seen == seen + w.seen;
  }

  /** The size in a listing: the prepared images of one root, in any order, with one set of marks for all. If each of
      them was verified and they agree about their digests, every blob is counted exactly once. */
  method ListSize(f: Formats, st: Blobs, ds: seq<Descriptor>) returns (r: Result<int>)
    requires forall d <- ds :: Validate(f, st, d, 0, {}).result.Ok?
    requires Jointly(f, st, ds)
    ensures Union(f, st, ds) <= st.Keys && r == Ok(Weight(st, Union(f, st, ds)))
  {
    hide Validate, Walk, Jointly, Closed;
    var walker := new Walker(f, st);
    var total := 0;
    assert Closed(f, st, ds, {}) by { NothingIsClosed(f, st, ds); }
    assert ds[..0] == [];
    for i := 0 to |ds|
      invariant walker.f == f && walker.st == st && fresh(walker)
      invariant walker.seen == Union(f, st, ds[..i]) && walker.seen <= st.Keys && total == Weight(st, walker.seen)
      invariant Closed(f, st, ds, walker.seen)
    {
      WalkUnites(f, st, ds, ds[i], walker.seen);
      assert ds[..i + 1][..i] == ds[..i];
      var n := walker.GraphSize(ds[i]);
      total := total + n.value;
    }
    assert ds[..|ds|] == ds;
    return Ok(total);
  }

  lemma NothingIsClosed(f: Formats, st: Blobs, ds: seq<Descriptor>)
    ensures Closed(f, st, ds, {})
  {
  }
}
