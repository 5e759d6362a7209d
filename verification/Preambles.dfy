/** internal/docker/command_identity.go: the first line of stderr names the guest process; what follows it is the
    command's own. */
module Preambles {
  import opened Prelude

  const LIMIT: nat := 256
  const NEWLINE: Byte := 10
  const SPACE: Byte := 32
  const PID_BOUND: nat := 0x8000_0000
  const START_BOUND: nat := 0x1_0000_0000_0000_0000

  /******* Decimal numbers *******/

  predicate IsDigit(b: Byte) {
    48 <= b <= 57
  }

  predicate AllDigits(s: seq<Byte>) {
    forall b <- s :: IsDigit(b)
  }

  function Value(s: seq<Byte>): nat
    requires AllDigits(s)
  {
    if s == [] then 0
    else
      assert IsDigit(s[|s| - 1]);
      var last: int := s[|s| - 1];
      Value(s[..|s| - 1]) * 10 + (last - 48)
  }

  /** strconv.ParseUint in base 10: digits only, below the bound. */
  function ParseUint(s: seq<Byte>, bound: nat): Option<nat> {
    if s == [] || !AllDigits(s) || Value(s) >= bound then None else Some(Value(s))
  }

  /** strconv.FormatUint in base 10. */
  function FormatUint(n: nat): (s: seq<Byte>)
    ensures s != [] && AllDigits(s)
  {
    if n < 10 then [48 + n] else FormatUint(n / 10) + [48 + n % 10]
  }

  lemma {:induction false} FormatParses(n: nat)
    ensures Value(FormatUint(n)) == n
  {
    var s := FormatUint(n);
    if n < 10 {
      assert s[..0] == [];
    } else {
      FormatParses(n / 10);
      assert s[..|s| - 1] == FormatUint(n / 10);
    }
  }

  /******* Fields *******/

  /** strings.Split on single spaces. */
  function Split(s: seq<Byte>): (fields: seq<seq<Byte>>)
    ensures fields != []
  {
    if s == [] then [[]]
    else
      var rest := Split(s[..|s| - 1]);
      var b := s[|s| - 1];
      if b == SPACE then rest + [[]] else rest[..|rest| - 1] + [rest[|rest| - 1] + [b]]
  }

  function Join(fields: seq<seq<Byte>>): seq<Byte>
    requires fields != []
  {
    if |fields| == 1 then fields[0] else Join(fields[..|fields| - 1]) + [SPACE] + fields[|fields| - 1]
  }

  lemma {:induction false} JoinSplit(s: seq<Byte>)
    ensures Join(Split(s)) == s
  {
    if s != [] {
      var rest, b := Split(s[..|s| - 1]), s[|s| - 1];
      JoinSplit(s[..|s| - 1]);
      var fields := Split(s);
      if b == SPACE {
        assert fields[..|fields| - 1] == rest;
      } else if |rest| > 1 {
        assert fields[..|fields| - 1] == rest[..|rest| - 1];
      }
      assert s == s[..|s| - 1] + [b];
    }
  }

  predicate NoSpace(s: seq<Byte>) {
    SPACE !in s
  }

  /** A field without spaces extends the last field. */
  lemma {:induction false} SplitAppend(s: seq<Byte>, t: seq<Byte>)
    requires NoSpace(t)
    ensures var fields := Split(s); Split(s + t) == fields[..|fields| - 1] + [fields[|fields| - 1] + t]
    decreases |t|
  {
    hide Split;
    var fields := Split(s);
    if t == [] {
      assert s + t == s && fields[|fields| - 1] + t == fields[|fields| - 1];
    } else {
      var t', b := t[..|t| - 1], t[|t| - 1];
      SplitAppend(s, t');
      SplitByte(s + t', b);
      LongerLast(fields, t', b);
      assert t' + [b] == t && s + t == s + t' + [b];
    }
  }

  lemma SplitByte(s: seq<Byte>, b: Byte)
    requires b != SPACE
    ensures var fields := Split(s); Split(s + [b]) == fields[..|fields| - 1] + [fields[|fields| - 1] + [b]]
  {
    assert (s + [b])[..|s|] == s;
  }

  /** The last field gets one byte longer. */
  lemma LongerLast(fields: seq<seq<Byte>>, t: seq<Byte>, b: Byte)
    requires fields != []
    ensures var last := fields[|fields| - 1];
      var longer := fields[..|fields| - 1] + [last + t];
      longer[..|longer| - 1] + [longer[|longer| - 1] + [b]] == fields[..|fields| - 1] + [last + (t + [b])]
  {
    var last := fields[|fields| - 1];
    assert (last + t) + [b] == last + (t + [b]);
  }

  lemma SplitEmpty()
    ensures Split([]) == [[]]
  {
  }

  lemma SplitSpace(s: seq<Byte>)
    ensures Split(s + [SPACE]) == Split(s) + [[]]
  {
  }

  lemma {:induction false} SplitJoin(fields: seq<seq<Byte>>)
    requires fields != [] && forall f <- fields :: NoSpace(f)
    ensures Split(Join(fields)) == fields
  {
    hide Split;
    if |fields| == 1 {
      assert Split([]) == [[]] by { SplitEmpty(); }
      SplitAppend([], fields[0]);
      assert [] + fields[0] == fields[0];
      assert fields == [fields[0]];
    } else {
      var some, last := fields[..|fields| - 1], fields[|fields| - 1];
      SplitJoin(some);
      var s := Join(some) + [SPACE];
      SplitSpace(Join(some));
      hide Join;
      SplitAppend(s, last);
      assert (some + [[]])[..|some|] == some && [] + last == last;
    }
  }

  /******* The record *******/

  datatype Identity = Identity(pid: nat, start: nat)

  function Print(tag: seq<Byte>, nonce: seq<Byte>, id: Identity): seq<Byte> {
    Join([tag, nonce, FormatUint(id.pid), FormatUint(id.start)]) + [NEWLINE]
  }

  function ParseIdentity(record: seq<Byte>, tag: seq<Byte>, nonce: seq<Byte>): Option<Identity> {
    if record == [] || |record| > LIMIT || record[|record| - 1] != NEWLINE then None
    else
      var fields := Split(record[..|record| - 1]);
      if |fields| != 4 || fields[0] != tag || fields[1] != nonce then None
      else
        var pid, start := ParseUint(fields[2], PID_BOUND), ParseUint(fields[3], START_BOUND);
        if pid.None? || start.None? || pid.value <= 1 || start.value == 0
           || FormatUint(pid.value) != fields[2] || FormatUint(start.value) != fields[3]
        then None else Some(Identity(pid.value, start.value))
  }

  predicate Fits(id: Identity) {
    1 < id.pid < PID_BOUND && 0 < id.start < START_BOUND
  }

  /** Parsing accepts exactly what printing an identity in the bounds gives, and gives that identity back. */
  lemma ParseIsInverse(record: seq<Byte>, tag: seq<Byte>, nonce: seq<Byte>, id: Identity)
    requires NoSpace(tag) && NoSpace(nonce)
    ensures ParseIdentity(record, tag, nonce) == Some(id) <==> Fits(id) && |record| <= LIMIT && record == Print(tag, nonce, id)
  {
    if ParseIdentity(record, tag, nonce) == Some(id) {
      ParsedIsPrinted(record, tag, nonce, id);
    }
    if Fits(id) && |record| <= LIMIT && record == Print(tag, nonce, id) {
      PrintedIsParsed(tag, nonce, id);
    }
  }

  lemma ParsedIsPrinted(record: seq<Byte>, tag: seq<Byte>, nonce: seq<Byte>, id: Identity)
    requires ParseIdentity(record, tag, nonce) == Some(id)
    ensures Fits(id) && |record| <= LIMIT && record == Print(tag, nonce, id)
  {
    hide Split, Join, FormatUint;
    var line := record[..|record| - 1];
    var fields := Split(line);
    JoinSplit(line);
    assert fields == [fields[0], fields[1], fields[2], fields[3]];
    assert record == line + [NEWLINE];
  }

  lemma PrintedIsParsed(tag: seq<Byte>, nonce: seq<Byte>, id: Identity)
    requires NoSpace(tag) && NoSpace(nonce) && Fits(id) && |Print(tag, nonce, id)| <= LIMIT
    ensures ParseIdentity(Print(tag, nonce, id), tag, nonce) == Some(id)
  {
    var fields := [tag, nonce, FormatUint(id.pid), FormatUint(id.start)];
    FormatParses(id.pid);
    FormatParses(id.start);
    SplitJoin(fields);
    var record := Print(tag, nonce, id);
    assert record[..|record| - 1] == Join(fields);
    hide Split, Join, FormatUint;
  }

  /** A decimal number as FormatUint writes it: digits, and no zero in front. */
  predicate IsDecimal(s: seq<Byte>) {
    s != [] && AllDigits(s) && (|s| > 1 ==> s[0] != 48)
  }

  lemma {:induction false} FormatIsDecimal(n: nat)
    ensures IsDecimal(FormatUint(n)) && (n > 0 ==> FormatUint(n)[0] != 48)
  {
    if n >= 10 {
      FormatIsDecimal(n / 10);
    }
  }

  lemma {:induction false} DecimalIsFormat(s: seq<Byte>)
    requires IsDecimal(s)
    ensures FormatUint(Value(s)) == s && (|s| > 1 || s[0] != 48 ==> Value(s) > 0)
  {
    var init, last := s[..|s| - 1], s[|s| - 1];
    assert IsDigit(last);
    if init == [] {
      assert Value(init) == 0 && s == [s[0]];
    } else {
      assert init[0] == s[0] && s == init + [last];
      DecimalIsFormat(init);
      assert Value(s) == Value(init) * 10 + (last - 48);
      hide Value, FormatUint;
      OneDigitMore(Value(init), last - 48);
    }
  }

  lemma OneDigitMore(n: nat, d: nat)
    requires n > 0 && d < 10
    ensures FormatUint(n * 10 + d) == FormatUint(n) + [48 + d]
  {
    assert (n * 10 + d) / 10 == n && (n * 10 + d) % 10 == d;
  }

  /** The record, field by field: the tag, the nonce, the process number and the start time, in this order, each number in
      decimal, between single spaces and before a newline. */
  lemma RecordIs(record: seq<Byte>, tag: seq<Byte>, nonce: seq<Byte>, id: Identity)
    requires NoSpace(tag) && NoSpace(nonce)
    ensures ParseIdentity(record, tag, nonce) == Some(id) <==>
      && 1 < id.pid < PID_BOUND && 0 < id.start < START_BOUND && |record| <= LIMIT
      && exists pid, start ::
           && record == tag + [SPACE] + nonce + [SPACE] + pid + [SPACE] + start + [NEWLINE]
           && IsDecimal(pid) && IsDecimal(start) && Value(pid) == id.pid && Value(start) == id.start
  {
    ParseIsInverse(record, tag, nonce, id);
    FormatIsDecimal(id.pid);
    FormatIsDecimal(id.start);
    FormatParses(id.pid);
    FormatParses(id.start);
    JoinFour(tag, nonce, FormatUint(id.pid), FormatUint(id.start));
    hide ParseIdentity, Join, FormatUint, Value;
    forall pid, start | IsDecimal(pid) && IsDecimal(start) && Value(pid) == id.pid && Value(start) == id.start
      ensures pid == FormatUint(id.pid) && start == FormatUint(id.start)
    {
      DecimalIsFormat(pid);
      DecimalIsFormat(start);
    }
  }

  lemma JoinFour(a: seq<Byte>, b: seq<Byte>, c: seq<Byte>, d: seq<Byte>)
    ensures Join([a, b, c, d]) == a + [SPACE] + b + [SPACE] + c + [SPACE] + d
  {
    var two, three := [a, b], [a, b, c];
    assert two[..1] == [a] && three[..2] == two && [a, b, c, d][..3] == three;
    assert Join(two) == a + [SPACE] + b;
    assert Join(three) == Join(two) + [SPACE] + c;
  }

  /******* The filter *******/

  datatype Publication = Known(id: Identity) | Unknown

  /** bytes.IndexByte for a newline; |p| if there is none. */
  function LineEnd(p: seq<Byte>): (k: nat)
    ensures k <= |p| && (k < |p| ==> p[k] == NEWLINE) && NEWLINE !in p[..k]
  {
    if p == [] || p[0] == NEWLINE then 0
    else
      assert p == [p[0]] + p[1..];
      1 + LineEnd(p[1..])
  }

  /** The first record of the whole stream, if it ends within the limit. */
  function Record(all: seq<Byte>): Option<seq<Byte>> {
    if LineEnd(all) < |all| && LineEnd(all) < LIMIT then Some(all[..LineEnd(all) + 1]) else None
  }

  /** What the stream has to lead to, however it was cut. */
  function Expected(all: seq<Byte>, tag: seq<Byte>, nonce: seq<Byte>): Publication {
    if Record(all).None? then Unknown
    else match ParseIdentity(Record(all).value, tag, nonce)
      case None => Unknown
      case Some(id) => Known(id)
  }

  /** The first newline is where the line ends. */
  lemma {:induction false} LineEndIs(p: seq<Byte>, k: nat)
    requires k < |p| && p[k] == NEWLINE && NEWLINE !in p[..k]
    ensures LineEnd(p) == k
  {
    if k > 0 {
      assert p[0] == p[..k][0];
      assert p[1..][..k - 1] == p[..k][1..];
      LineEndIs(p[1..], k - 1);
    }
  }

  /** The first line of a stream that begins with a record is that record. */
  lemma PrintedIsFirst(all: seq<Byte>, tag: seq<Byte>, nonce: seq<Byte>, id: Identity)
    requires NEWLINE !in tag && NEWLINE !in nonce && Print(tag, nonce, id) <= all
    ensures LineEnd(all) == |Print(tag, nonce, id)| - 1 && all[..LineEnd(all) + 1] == Print(tag, nonce, id)
  {
    var pid, start := FormatUint(id.pid), FormatUint(id.start);
    JoinFour(tag, nonce, pid, start);
    assert forall b <- pid :: b != NEWLINE;
    assert forall b <- start :: b != NEWLINE;
    hide Join, FormatUint;
    var record := Print(tag, nonce, id);
    var line := tag + [SPACE] + nonce + [SPACE] + pid + [SPACE] + start;
    assert record == line + [NEWLINE] && NEWLINE !in line;
    assert all[..|line|] == record[..|line|] == line && all[|line|] == record[|line|];
    LineEndIs(all, |line|);
  }

  /** An identity is expected exactly for the streams that begin with its record. */
  lemma ExpectedIff(all: seq<Byte>, tag: seq<Byte>, nonce: seq<Byte>, id: Identity)
    requires NoSpace(tag) && NoSpace(nonce) && NEWLINE !in tag && NEWLINE !in nonce
    ensures Expected(all, tag, nonce) == Known(id) <==>
      Fits(id) && |Print(tag, nonce, id)| <= LIMIT && Print(tag, nonce, id) <= all
  {
    hide ParseIdentity, Print, LineEnd, Fits;
    if Record(all).Some? {
      ParseIsInverse(Record(all).value, tag, nonce, id);
    }
    if Print(tag, nonce, id) <= all {
      PrintedIsFirst(all, tag, nonce, id);
      ParseIsInverse(Print(tag, nonce, id), tag, nonce, id);
      Printed(tag, nonce, id);
    }
  }

  lemma Printed(tag: seq<Byte>, nonce: seq<Byte>, id: Identity)
    ensures Print(tag, nonce, id) != []
  {
  }

  /** Whatever follows, the first record is there, or has become too long. */
  predicate Settled(all: seq<Byte>) {
    Record(all).Some? || LineEnd(all) >= LIMIT
  }

  lemma LineEndAppend(s: seq<Byte>, p: seq<Byte>)
    ensures NEWLINE in s ==> LineEnd(s + p) == LineEnd(s) < |s|
    ensures NEWLINE !in s ==> LineEnd(s) == |s| && LineEnd(s + p) == |s| + LineEnd(p)
  {
    var k := LineEnd(s + p);
    assert NEWLINE in s ==> LineEnd(s) < |s| && s[LineEnd(s)] == NEWLINE;
    FirstNewline(s + p, if NEWLINE in s then LineEnd(s) else |s| + LineEnd(p));
  }

  lemma FirstNewline(p: seq<Byte>, k: nat)
    requires k <= |p| && NEWLINE !in p[..k] && (k < |p| ==> p[k] == NEWLINE)
    ensures LineEnd(p) == k
  {
  }

  /** The first record is settled once it has ended. */
  lemma RecordStays(s: seq<Byte>, p: seq<Byte>, tag: seq<Byte>, nonce: seq<Byte>)
    requires Record(s).Some?
    ensures Record(s + p) == Record(s) && Expected(s + p, tag, nonce) == Expected(s, tag, nonce)
  {
    hide ParseIdentity;
    assert s[LineEnd(s)] == NEWLINE;
    LineEndAppend(s, p);
    assert (s + p)[..LineEnd(s) + 1] == s[..LineEnd(s) + 1];
  }

  /** One more write to a preamble that has not ended: it makes the record too long, or leaves it open, or ends it. */
  lemma FirstLine(before: seq<Byte>, p: seq<Byte>, prefix: nat, tag: seq<Byte>, nonce: seq<Byte>)
    requires NEWLINE !in before && |before| < LIMIT
    requires prefix == if LineEnd(p) < |p| then LineEnd(p) + 1 else |p|
    ensures var all, ended := before + p, LineEnd(p) < |p|;
      && (|before| + prefix > LIMIT || (!ended && |before| + prefix == LIMIT) ==> Settled(all) && Expected(all, tag, nonce).Unknown?)
      && (!ended ==> NEWLINE !in all && prefix == |p|)
      && (ended && |before| + prefix <= LIMIT ==>
            && Settled(all) && Record(all) == Some(before + p[..prefix]) && all == before + p[..prefix] + p[prefix..]
            && Expected(all, tag, nonce) == match ParseIdentity(before + p[..prefix], tag, nonce) case None => Unknown case Some(id) => Known(id))
  {
    LineEndAppend(before, p);
    hide ParseIdentity, LineEnd;
    var all := before + p;
    if LineEnd(p) < |p| && |before| + prefix <= LIMIT {
      FirstRecord(before, p, prefix);
    }
    if LineEnd(p) == |p| {
      assert p[..|p|] == p;
    }
  }

  lemma FirstRecord(before: seq<Byte>, p: seq<Byte>, prefix: nat)
    requires prefix <= |p| && |before| + prefix <= LIMIT && LineEnd(before + p) == |before| + prefix - 1
    ensures Record(before + p) == Some(before + p[..prefix]) && before + p == before + p[..prefix] + p[prefix..]
  {
    hide LineEnd;
    Cut(before, p, prefix);
  }

  lemma Cut(a: seq<Byte>, b: seq<Byte>, k: nat)
    requires k <= |b|
    ensures (a + b)[..|a| + k] == a + b[..k] && a + b == a + b[..k] + b[k..]
  {
  }

  /** The writer that the demultiplexer feeds, with the parts of the running command that it changes. */
  class IdentityStderr {
    const tag: seq<Byte>
    const nonce: seq<Byte>
    var preamble: seq<Byte>
    var complete: bool
    var failed: bool                       // a write has returned an error: no further write follows
    var published: Option<Publication>     // set once
    var stderr: seq<Byte>
    ghost var all: seq<Byte>

    ghost predicate Valid()
      reads this
    {
      && (complete || failed ==> published == Some(Expected(all, tag, nonce)))
      && (complete ==> !failed && published.value.Known? && Record(all).Some? && all == Record(all).value + stderr)
      && (failed ==> published.value.Unknown? && Settled(all))
      && (!complete ==> stderr == [])
      && (!complete && !failed ==> published.None? && preamble == all && |all| < LIMIT && NEWLINE !in all)
    }

    constructor (tag: seq<Byte>, nonce: seq<Byte>)
      ensures Valid() && !complete && !failed && all == [] && this.tag == tag && this.nonce == nonce
    {
      this.tag, this.nonce := tag, nonce;
      preamble, complete, failed, published, stderr, all := [], false, false, None, [], [];
    }

    method Publish(p: Publication)
      modifies this`published
      ensures published == if old(published).Some? then old(published) else Some(p)
    {
      if published.None? {
        published := Some(p);
      }
    }

    method Write(p: seq<Byte>) returns (r: Result<nat>)
      requires Valid() && !failed
      modifies this
      ensures Valid() && all == old(all) + p && (r.Ok? <==> !failed) && (r.Ok? ==> r.value == |p|)
    {
      hide ParseIdentity, Record, Expected, Settled;
      ghost var before := all;
      all := all + p;
      if complete {
        RecordStays(before, p, tag, nonce);
        stderr := stderr + p;
        return Ok(|p|);
      }
      var end := LineEnd(p);
      var prefix := if end < |p| then end + 1 else |p|;
      FirstLine(before, p, prefix, tag, nonce);
      hide LineEnd;
      if prefix > LIMIT - |preamble| || (end == |p| && prefix == LIMIT - |preamble|) {
        Publish(Unknown);
        failed := true;
        return Err(Invalid);
      }
      preamble := preamble + p[..prefix];
      if end == |p| {
        assert p[..prefix] == p;
        return Ok(|p|);
      }
      var id := ParseIdentity(preamble, tag, nonce);
      if id.None? {
        Publish(Unknown);
        failed := true;
        return Err(Invalid);
      }
      complete, preamble := true, [];
      Publish(Known(id.value));
      stderr := p[prefix..];
      return Ok(|p|);
    }

    method Finish(err: bool) returns (r: bool)
      requires Valid()
      modifies this`published
      ensures published.Some? && r == (err || !complete)
      ensures published.value == Expected(all, tag, nonce) && (published.value.Known? ==> complete)
    {
      r := err;
      NoRecord(all, tag, nonce);
      if !complete {
        Publish(Unknown);
        r := true;
      }
    }
  }

  lemma NoRecord(all: seq<Byte>, tag: seq<Byte>, nonce: seq<Byte>)
    ensures NEWLINE !in all ==> Expected(all, tag, nonce).Unknown?
  {
  }

  lemma {:induction false} FlattenPrefix(writes: seq<seq<Byte>>, i: nat)
    requires i <= |writes|
    ensures Flatten(writes[..i]) <= Flatten(writes)
    decreases |writes|
  {
    if i < |writes| {
      FlattenPrefix(writes[..|writes| - 1], i);
      assert writes[..|writes| - 1][..i] == writes[..i];
    } else {
      assert writes[..i] == writes;
    }
  }

  /** A stream whose record failed stays failed, whatever follows. */
  lemma UnknownStays(s: seq<Byte>, t: seq<Byte>, tag: seq<Byte>, nonce: seq<Byte>)
    requires s <= t && Expected(s, tag, nonce).Unknown? && Settled(s)
    ensures Expected(t, tag, nonce).Unknown?
  {
    hide ParseIdentity;
    var p := t[|s|..];
    assert t == s + p;
    LineEndAppend(s, p);
    if Record(s).Some? {
      RecordStays(s, p, tag, nonce);
    }
  }

  /** However stderr is cut into writes, the identity is the one in its first record and the retained stderr is
      exactly what follows that record; or there is none, an error is published, and nothing is retained. */
  method Filter(tag: seq<Byte>, nonce: seq<Byte>, writes: seq<seq<Byte>>) returns (published: Publication, stderr: seq<Byte>, err: bool)
    ensures published == Expected(Flatten(writes), tag, nonce)
    ensures published.Known? ==> Record(Flatten(writes)).Some? && Flatten(writes) == Record(Flatten(writes)).value + stderr
    ensures published.Unknown? ==> stderr == []
    ensures err <==> published.Unknown?
  {
    hide Expected, Record;
    var w := new IdentityStderr(tag, nonce);
    var all := Flatten(writes);
    for i := 0 to |writes|
      invariant w.Valid() && fresh(w) && !w.failed && w.all == Flatten(writes[..i]) && w.tag == tag && w.nonce == nonce
    {
      assert writes[..i + 1][..i] == writes[..i];
      var written := w.Write(writes[i]);
      if written.Err? {
        FlattenPrefix(writes, i + 1);
        FailedEarly(w, all);
        err := w.Finish(true);
        return w.published.value, w.stderr, err;
      }
    }
    assert writes[..|writes|] == writes;
    err := w.Finish(false);
    return w.published.value, w.stderr, err;
  }

  lemma FailedEarly(w: IdentityStderr, all: seq<Byte>)
    requires w.Valid() && w.failed && w.all <= all
    ensures Expected(all, w.tag, w.nonce).Unknown? && Expected(w.all, w.tag, w.nonce).Unknown?
  {
    UnknownStays(w.all, all, w.tag, w.nonce);
  }
}
