/** The walks of internal/images as they run: recursive methods over one shared set of marked digests. */
module OciWalks {
  import opened Prelude
  import opened OciGraphs

  /** The archive after a walk has written its blobs. */
  function Written(w: seq<Descriptor>, v: Visit): seq<Descriptor> {
    w + v.visits
  }

  lemma WrittenTwice(w: seq<Descriptor>, first: Visit, rest: Visit)
    ensures Written(Written(w, first), rest) == Written(w, rest.(visits := first.visits + rest.visits))
  {
  }

  lemma WrittenNothing(w: seq<Descriptor>, v: Visit)
    requires v.visits == []
    ensures Written(w, v) == w
  {
  }

  class Walker {
    const f: Formats
    const st: Blobs
    var seen: set<Digest>
    var written: seq<Descriptor>   // the blob entries of the archive, for CopyGraph

    constructor (f: Formats, st: Blobs)
      ensures this.f == f && this.st == st && seen == {} && written == []
    {
      this.f, this.st, seen, written := f, st, {}, [];
    }

    method ValidateGraph(d: Descriptor, depth: nat) returns (r: Result<int>)
      modifies this`seen
      ensures r == Validate(f, st, d, depth, old(seen)).result
      ensures seen == Validate(f, st, d, depth, old(seen)).seen
      decreases MAX_DEPTH + 1 - depth, 1
    {
      hide Children;
      if d.media == Other("") {
        return Err(Invalid);
      }
      if |d.urls| > 0 {
        return Err(Invalid);
      }
      if |d.data| > 0 {
        if f.hash(d.data) != d.digest || |d.data| != d.size {
          return Err(Invalid);
        }
      }
      if depth > MAX_DEPTH || |seen| > MAX_BLOBS {
        return Err(Invalid);
      }
      if !f.valid(d.digest) || d.digest !in st {
        return Err(Mismatch);
      }
      if !st[d.digest].regular || d.size < 0 || d.size > MAX_ARCHIVE || |st[d.digest].bytes| != d.size {
        return Err(Mismatch);
      }
      if d.digest in seen {
        return Ok(0);
      }
      seen := seen + {d.digest};
      if f.hash(st[d.digest].bytes) != d.digest {
        return Err(Mismatch);
      }
      var kids := Children(f, st, d);
      if kids.Err? {
        return Err(kids.error);
      }
      r := ValidateChildren(kids.value, depth, d.size);
    }

    /** The loop over the children. */
    method ValidateChildren(kids: seq<Descriptor>, depth: nat, own: int) returns (r: Result<int>)
      requires depth <= MAX_DEPTH
      modifies this`seen
      ensures r == ValidateKids(f, st, kids, depth, old(seen), own).result
      ensures seen == ValidateKids(f, st, kids, depth, old(seen), own).seen
      decreases MAX_DEPTH + 1 - depth, 0
    {
      hide Validate;
      var n := own;
      ghost var all := ValidateKids(f, st, kids, depth, seen, n);
      for i := 0 to |kids|
        invariant var rest := ValidateKids(f, st, kids[i..], depth, seen, n); rest.result == all.result && rest.seen == all.seen
      {
        assert kids[i..][0] == kids[i] && kids[i..][1..] == kids[i + 1..];
        var size := ValidateGraph(kids[i], depth + 1);
        if size.Err? {
          return size;
        }
        n := n + size.value;
        if n > MAX_ARCHIVE {
          return Err(Invalid);
        }
      }
      return Ok(n);
    }

    method GraphSize(d: Descriptor) returns (r: Result<int>)
      modifies this`seen
      ensures r == Walk(f, st, d, old(seen), false).result
      ensures seen == Walk(f, st, d, old(seen), false).seen
      decreases Unmarked(st, seen), 0
    {
      hide Children, Unmarked;
      if d.digest in seen {
        return Ok(0);
      }
      seen := seen + {d.digest};
      var kids := Children(f, st, d);
      if kids.Err? {
        return Err(kids.error);
      }
      ParentIsRead(f, st, d);
      if kids.value != [] {
        Enters(st, old(seen), d.digest);
        r := SizeChildren(kids.value, d.size);
      } else {
        r := Ok(d.size);
      }
    }

    method SizeChildren(kids: seq<Descriptor>, own: int) returns (r: Result<int>)
      modifies this`seen
      ensures r == WalkKids(f, st, kids, old(seen), false, own).result
      ensures seen == WalkKids(f, st, kids, old(seen), false, own).seen
      decreases Unmarked(st, seen), 1
    {
      hide Walk, Unmarked;
      ghost var before := seen;
      var n := own;
      ghost var all := WalkKids(f, st, kids, seen, false, n);
      for i := 0 to |kids|
        invariant before <= seen
        invariant var rest := WalkKids(f, st, kids[i..], seen, false, n); rest.result == all.result && rest.seen == all.seen
      {
        assert kids[i..][0] == kids[i] && kids[i..][1..] == kids[i + 1..];
        Shrinks(st, before, seen);
        var size := GraphSize(kids[i]);
        if size.Err? {
          return size;
        }
        n := n + size.value;
      }
      return Ok(n);
    }

    /** Every blob is written once, before its children. */
    method CopyGraph(d: Descriptor) returns (r: Result<()>)
      modifies this`seen, this`written
      ensures var v := Walk(f, st, d, old(seen), true);
        r.Ok? == v.result.Ok? && seen == v.seen && written == Written(old(written), v)
      decreases Unmarked(st, seen), 0
    {
      hide Children, Unmarked;
      if d.digest in seen {
        return Ok(());
      }
      seen := seen + {d.digest};
      if !f.valid(d.digest) || d.digest !in st {
        return Err(NotFound);
      }
      written := written + [d];
      var kids := Children(f, st, d);
      if kids.Err? {
        return Err(kids.error);
      }
      ParentIsRead(f, st, d);
      if kids.value != [] {
        Enters(st, old(seen), d.digest);
        r := CopyChildren(kids.value, d.size);
      } else {
        r := Ok(());
      }
    }

    method CopyChildren(kids: seq<Descriptor>, ghost own: int) returns (r: Result<()>)
      modifies this`seen, this`written
      ensures var v := WalkKids(f, st, kids, old(seen), true, own);
        r.Ok? == v.result.Ok? && seen == v.seen && written == Written(old(written), v)
      decreases Unmarked(st, seen), 1
    {
      hide Walk, Written, Unmarked;
      ghost var n, before := own, seen;
      ghost var all := WalkKids(f, st, kids, seen, true, n);
      for i := 0 to |kids|
        invariant before <= seen
        invariant var rest := WalkKids(f, st, kids[i..], seen, true, n);
          rest.result == all.result && rest.seen == all.seen && Written(written, rest) == Written(old(written), all)
      {
        assert kids[i..][0] == kids[i] && kids[i..][1..] == kids[i + 1..];
        ghost var first, w := Walk(f, st, kids[i], seen, true), written;
        Shrinks(st, before, seen);
        var copied := CopyGraph(kids[i]);
        if copied.Err? {
          return copied;
        }
        n := n + first.result.value;
        WrittenTwice(w, first, WalkKids(f, st, kids[i + 1..], seen, true, n));
      }
      WrittenNothing(written, Visit(Ok(n), seen, []));
      return Ok(());
    }

    method CollectFiles(d: Descriptor, depth: nat) returns (r: Result<()>)
      modifies this`seen
      ensures var v := Collect(f, st, d, depth, old(seen));
        r.Ok? == v.result.Ok? && (r.Err? ==> r.error == v.result.error) && seen == v.seen
      decreases MAX_DEPTH + 1 - depth, 1
    {
      hide Children;
      if depth > MAX_DEPTH || |seen| > MAX_BLOBS || !f.valid(d.digest) {
        return Err(Invalid);
      }
      if d.digest in seen {
        return Ok(());
      }
      if d.digest !in st || !st[d.digest].regular {
        return Err(NotFound);
      }
      seen := seen + {d.digest};
      var kids := Children(f, st, d);
      if kids.Err? {
        return Err(kids.error);
      }
      r := CollectChildren(kids.value, depth);
    }

    method CollectChildren(kids: seq<Descriptor>, depth: nat) returns (r: Result<()>)
      requires depth <= MAX_DEPTH
      modifies this`seen
      ensures var v := CollectKids(f, st, kids, depth, old(seen));
        r.Ok? == v.result.Ok? && (r.Err? ==> r.error == v.result.error) && seen == v.seen
      decreases MAX_DEPTH + 1 - depth, 0
    {
      hide Collect;
      ghost var all := CollectKids(f, st, kids, depth, seen);
      for i := 0 to |kids|
        invariant var rest := CollectKids(f, st, kids[i..], depth, seen); rest.result == all.result && rest.seen == all.seen
      {
        assert kids[i..][0] == kids[i] && kids[i..][1..] == kids[i + 1..];
        var collected := CollectFiles(kids[i], depth + 1);
        if collected.Err? {
          return collected;
        }
      }
      return Ok(());
    }
  }
}
