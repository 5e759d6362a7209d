/** internal/api/handler.go, readStream: text frames from a byte stream that is read in arbitrary pieces. Valid text
    is what section 4 of RFC 3629 says. */
module Utf8Framing {
  import opened Prelude

  /******* One character *******/

  predicate IsTail(b: Byte) {
    0x80 <= b <= 0xBF
  }

  /** UTF8-char of RFC 3629. */
  predicate IsChar(s: seq<Byte>) {
    || (|s| == 1 && s[0] <= 0x7F)
    || (|s| == 2 && 0xC2 <= s[0] <= 0xDF && IsTail(s[1]))
    || (|s| == 3 && (|| (s[0] == 0xE0 && 0xA0 <= s[1] <= 0xBF)
                     || (0xE1 <= s[0] <= 0xEC && IsTail(s[1]))
                     || (s[0] == 0xED && 0x80 <= s[1] <= 0x9F)
                     || (0xEE <= s[0] <= 0xEF && IsTail(s[1]))) && IsTail(s[2]))
    || (|s| == 4 && (|| (s[0] == 0xF0 && 0x90 <= s[1] <= 0xBF)
                     || (0xF1 <= s[0] <= 0xF3 && IsTail(s[1]))
                     || (s[0] == 0xF4 && 0x80 <= s[1] <= 0x8F)) && IsTail(s[2]) && IsTail(s[3]))
  }

  /** How many bytes a character with this first byte has; 1 also for bytes that start none. */
  function Length(b: Byte): nat {
    if 0xC2 <= b <= 0xDF then 2 else if 0xE0 <= b <= 0xEF then 3 else if 0xF0 <= b <= 0xF4 then 4 else 1
  }

  predicate SecondFits(first: Byte, second: Byte) {
    var lo := if first == 0xE0 then 0xA0 else if first == 0xF0 then 0x90 else 0x80;
    var hi := if first == 0xED then 0x9F else if first == 0xF4 then 0x8F else 0xBF;
    lo <= second <= hi
  }

  /** utf8.FullRune: there is a whole character, or something that will never become one. */
  predicate FullRune(p: seq<Byte>) {
    && p != []
    && (|| |p| >= Length(p[0])
        || (|p| > 1 && !SecondFits(p[0], p[1]))
        || (|p| > 2 && !IsTail(p[2])))
  }

  /** utf8.DecodeRune: the size of the first character; None stands for the error rune of size 1. */
  function DecodeRune(p: seq<Byte>): Option<nat>
    requires p != []
  {
    var n := Length(p[0]);
    if n == 1 then (if p[0] <= 0x7F then Some(1) else None)
    else if |p| < n || !SecondFits(p[0], p[1]) then None
    else if n > 2 && !IsTail(p[2]) then None
    else if n > 3 && !IsTail(p[3]) then None
    else Some(n)
  }

  /** A size is decoded exactly where the grammar has a character, and no character is the beginning of another. */
  lemma DecodesGrammar(p: seq<Byte>, n: nat)
    requires p != []
    ensures DecodeRune(p) == Some(n) <==> n <= |p| && IsChar(p[..n])
    ensures DecodeRune(p).Some? ==> FullRune(p)
  {
  }

  /** More input is waited for exactly while what is there can still become a character. */
  lemma WaitsForGrammar(p: seq<Byte>)
    ensures !FullRune(p) <==> exists q :: q != [] && IsChar(p + q)
  {
    forall q | q != [] && IsChar(p + q) ensures !FullRune(p) {
      CompletedWaits(p, q);
    }
    if p == [] {
      assert IsChar(p + [0]);
    } else if !FullRune(p) {
      Completes(p);
    }
  }

  lemma CompletedWaits(p: seq<Byte>, q: seq<Byte>)
    requires q != [] && IsChar(p + q)
    ensures !FullRune(p)
  {
  }

  /** Bytes that complete p to a character, if anything does. */
  function Completion(p: seq<Byte>): (q: seq<Byte>)
    requires p != [] && !FullRune(p)
    ensures |p| + |q| == Length(p[0])
  {
    var second: Byte := if p[0] == 0xE0 then 0xA0 else if p[0] == 0xF0 then 0x90 else 0x80;
    var all: seq<Byte> := [second, 0x80, 0x80];
    all[|p| - 1..Length(p[0]) - 1]
  }

  lemma Completes(p: seq<Byte>)
    requires p != [] && !FullRune(p)
    ensures Completion(p) != [] && IsChar(p + Completion(p))
  {
    var c := p + Completion(p);
    assert c[0] == p[0] && |c| == Length(c[0]) > 1;
    assert |p| > 1 ==> c[1] == p[1];
    assert |p| > 2 ==> c[2] == p[2];
    assert SecondFits(c[0], c[1]) && (|c| > 2 ==> IsTail(c[2])) && (|c| > 3 ==> IsTail(c[3]));
    FittingIsChar(c);
  }

  lemma FittingIsChar(c: seq<Byte>)
    requires |c| > 1 && |c| == Length(c[0]) && SecondFits(c[0], c[1])
    requires (|c| > 2 ==> IsTail(c[2])) && (|c| > 3 ==> IsTail(c[3]))
    ensures IsChar(c)
  {
  }

  lemma CarryIsSmall(p: seq<Byte>)
    requires !FullRune(p)
    ensures |p| <= 3
  {
  }

  /******* Text *******/

  /** The length of the longest prefix made of whole characters. */
  function Whole(s: seq<Byte>): (n: nat)
    ensures n <= |s|
    decreases |s|
  {
    if s == [] || !FullRune(s) || DecodeRune(s).None? then 0
    else
      DecodesGrammar(s, DecodeRune(s).value);
      DecodeRune(s).value + Whole(s[DecodeRune(s).value..])
  }

  /** Text is a sequence of characters. */
  predicate IsText(s: seq<Byte>)
    decreases |s|
  {
    s == [] || exists n | 0 < n <= |s| :: IsChar(s[..n]) && IsText(s[n..])
  }

  lemma DecodeMonotone(s: seq<Byte>, t: seq<Byte>)
    requires s != [] && FullRune(s)
    ensures FullRune(s + t) && DecodeRune(s + t) == DecodeRune(s)
  {
  }

  /** Characters that were cut off stay cut off, whatever comes after them. */
  lemma {:induction false} WholeAppend(s: seq<Byte>, t: seq<Byte>)
    requires Whole(s) == |s|
    ensures Whole(s + t) == |s| + Whole(t)
    decreases |s|
  {
    if s == [] {
      assert s + t == t;
    } else {
      var n := DecodeRune(s).value;
      DecodesGrammar(s, n);
      DecodeMonotone(s, t);
      DropAppend(s, t, n);
      hide FullRune, DecodeRune;
      WholeAppend(s[n..], t);
    }
  }

  /** After something that is no character, nothing is text any more. */
  lemma WholeStops(s: seq<Byte>, t: seq<Byte>)
    requires s != [] && FullRune(s) && DecodeRune(s).None?
    ensures Whole(s + t) == 0
  {
  }

  /** Whole(s) is the longest prefix that is text: it is text, and no longer prefix is. */
  lemma WholeIsLongest(s: seq<Byte>, k: nat)
    requires k <= |s|
    ensures IsText(s[..Whole(s)])
    ensures IsText(s[..k]) ==> k <= Whole(s)
  {
    WholeIsText(s);
    if IsText(s[..k]) {
      TextIsWhole(s, k);
    }
  }

  lemma {:induction false} WholeIsText(s: seq<Byte>)
    ensures IsText(s[..Whole(s)])
    decreases |s|
  {
    if s != [] && FullRune(s) && DecodeRune(s).Some? {
      var n := DecodeRune(s).value;
      DecodesGrammar(s, n);
      WholeIsText(s[n..]);
      var w := s[..Whole(s)];
      assert w[..n] == s[..n] && w[n..] == s[n..][..Whole(s[n..])];
    }
  }

  lemma {:induction false} TextIsWhole(s: seq<Byte>, k: nat)
    requires k <= |s| && IsText(s[..k])
    ensures k <= Whole(s)
    decreases |s|
  {
    if k > 0 {
      var n :| 0 < n <= k && IsChar(s[..k][..n]) && IsText(s[..k][n..]);
      assert s[..k][..n] == s[..n];
      hide IsText, IsChar;
      DecodesGrammar(s, n);
      SliceOfTake(s, n, k);
      TextIsWhole(s[n..], k - n);
    }
  }

  /******* The stream *******/

  const BUFFER_SIZE: nat := 32 * 1024
  const EMPTY_READS: nat := 100

  datatype Fault = BadText | ReadFailed | LogTruncated
  datatype Frame = Text(bytes: seq<Byte>) | Error(fault: Fault)

  /** How a read ends. */
  datatype Status = More | Eof | Broken(fault: Fault)

  function Sent(frames: seq<Frame>): seq<Byte> {
    if frames == [] then []
    else Sent(frames[..|frames| - 1]) + if frames[|frames| - 1].Text? then frames[|frames| - 1].bytes else []
  }

  lemma SentMore(frames: seq<Frame>, f: Frame)
    ensures Sent(frames + [f]) == Sent(frames) + if f.Text? then f.bytes else []
  {
  }

  /** Every text frame is not empty and is text by itself, and nothing follows an error. */
  ghost predicate WellFramed(frames: seq<Frame>) {
    && (forall i | 0 <= i < |frames| && frames[i].Text? :: frames[i].bytes != [] && IsText(frames[i].bytes))
    && (forall i | 0 <= i < |frames| - 1 :: frames[i].Text?)
  }

  /** What a read answered. */
  datatype Reply = Reply(n: nat, status: Status)

  /** The reader has answered nothing at all, EMPTY_READS times in a row. */
  ghost predicate Stuck(answers: seq<Reply>) {
    |answers| >= EMPTY_READS && forall i | |answers| - EMPTY_READS <= i < |answers| :: answers[i] == Reply(0, More)
  }

  /** Whether, and how, reading ends after these answers. */
  ghost function End(answers: seq<Reply>): Status {
    if Stuck(answers) then Broken(ReadFailed)
    else if answers == [] then More
    else answers[|answers| - 1].status
  }

  ghost function Received(answers: seq<Reply>): nat {
    if answers == [] then 0 else Received(answers[..|answers| - 1]) + answers[|answers| - 1].n
  }

  /** Reading went on as long as no answer ended it. */
  ghost predicate GoesOn(answers: seq<Reply>) {
    forall i | 0 <= i <= |answers| :: End(answers[..i]).More?
  }

  /** What was received contains something that is no character, whatever follows it. */
  ghost predicate Bad(received: seq<Byte>) {
    FullRune(received[Whole(received)..])
  }

  /** The frames of a stream that was not cancelled, said without its cutting into reads: if reading broke before
      anything bad was received, the text of what was received, and the error that the reader gave; otherwise all text
      of the source up to the first bad byte, and an error exactly if that is not the whole source. */
  ghost predicate Frames(source: seq<Byte>, received: seq<Byte>, end: Status, frames: seq<Frame>) {
    && received <= source
    && if end.Broken? && !Bad(received)
       then Sent(frames) == received[..Whole(received)] && frames != [] && frames[|frames| - 1] == Error(end.fault)
       else
         && (Bad(received) || (end.Eof? && received == source))
         && Sent(frames) == source[..Whole(source)]
         && ((frames != [] && frames[|frames| - 1].Error?) <==> Whole(source) != |source|)
         && (forall i | 0 <= i < |frames| && frames[i].Error? :: frames[i].fault == BadText)
  }

  /** The frames of a stream that was cancelled: there was something more to send, text or an error. */
  ghost predicate Cut(source: seq<Byte>, received: seq<Byte>, end: Status, frames: seq<Frame>) {
    && received <= source && Sent(frames) <= received[..Whole(received)] <= source[..Whole(source)]
    && (forall i | 0 <= i < |frames| :: frames[i].Text?)
    && (Sent(frames) != received[..Whole(received)] || Bad(received) || end.Broken? || (end.Eof? && Whole(received) != |received|))
  }

  /** The inner loop: how much of the buffer is text, and whether something else follows it. */
  method Scan(buffer: array<Byte>, total: nat) returns (end: nat, invalid: bool)
    requires total <= buffer.Length
    ensures end == Whole(buffer[..total]) && Whole(buffer[..end]) == end
    ensures invalid <==> FullRune(buffer[end..total])
    ensures invalid ==> end < total && DecodeRune(buffer[end..total]).None?
  {
    hide Whole, FullRune;
    end, invalid := 0, false;
    ghost var s := buffer[..total];
    assert s[0..] == s && s[..0] == [];
    WholeZero([]);
    while end < total && FullRune(buffer[end..total])
      invariant end <= total && Whole(s) == end + Whole(s[end..]) && Whole(s[..end]) == end
      invariant !invalid
      decreases total - end
    {
      assert s[end..] == buffer[end..total];
      var size := DecodeRune(buffer[end..total]);
      if size.None? {
        invalid := true;
        break;
      }
      OneMore(s, end, size.value);
      end := end + size.value;
    }
    assert s[end..] == buffer[end..total] && s[..end] == buffer[..end];
    WholeZero(s[end..]);
  }

  lemma WholeZero(s: seq<Byte>)
    ensures s == [] || !FullRune(s) || DecodeRune(s).None? ==> Whole(s) == 0
    ensures s == [] ==> !FullRune(s)
  {
  }

  /** The scan goes over one more character. */
  lemma OneMore(s: seq<Byte>, end: nat, n: nat)
    requires end < |s| && FullRune(s[end..]) && DecodeRune(s[end..]) == Some(n)
    requires Whole(s) == end + Whole(s[end..]) && Whole(s[..end]) == end
    ensures end + n <= |s| && Whole(s) == end + n + Whole(s[end + n..]) && Whole(s[..end + n]) == end + n
  {
    OneChar(s[end..], n);
    SliceOfDrop(s, end, n);
    Rejoin(s, end, end + n);
    hide FullRune, DecodeRune;
    WholeAppend(s[..end], s[end..end + n]);
  }

  lemma OneChar(s: seq<Byte>, n: nat)
    requires s != [] && DecodeRune(s) == Some(n)
    ensures n <= |s| && Whole(s[..n]) == n
  {
  }

  /** One read into buffer[carry:], as the io.Reader contract allows it: any number of bytes up to the room, then
      perhaps an error; the end is reported only after everything was delivered. */
  method Read(source: seq<Byte>, pos: nat, buffer: array<Byte>, carry: nat) returns (n: nat, status: Status)
    requires pos <= |source| && carry <= buffer.Length
    modifies buffer
    ensures carry + n <= buffer.Length && pos + n <= |source|
    ensures buffer[..carry + n] == old(buffer[..carry]) + source[pos..pos + n]
    ensures status.Eof? ==> pos + n == |source|
  {
    var wanted: nat, ends: bool, fails: bool, truncated: bool := *, *, *, *;
    var room := buffer.Length - carry;
    n := if wanted <= room && pos + wanted <= |source| then wanted else if room <= |source| - pos then room else |source| - pos;
    status := if ends && pos + n == |source| then Eof
              else if fails then Broken(if truncated then LogTruncated else ReadFailed) else More;
    forall j | 0 <= j < n {
      buffer[carry + j] := source[pos + j];
    }
  }

  /** What has been sent and kept after some answers: the text frames are the text of what was received, and the
      buffer holds the beginning of a character that is not complete. */
  ghost predicate Kept(source: seq<Byte>, pos: nat, carry: nat, frames: seq<Frame>) {
    && carry <= pos <= |source|
    && Sent(frames) == source[..pos - carry] && Whole(source[..pos - carry]) == pos - carry
    && WellFramed(frames) && forall i | 0 <= i < |frames| :: frames[i].Text?
  }

  datatype Outcome = Going | Finished | Cancelled

  /** After some answers reading goes on, and emptyReads of the last ones were empty. */
  ghost predicate Reading(answers: seq<Reply>, pos: nat, emptyReads: nat) {
    && GoesOn(answers) && Received(answers) == pos && emptyReads <= |answers| && emptyReads < EMPTY_READS
    && (forall i | |answers| - emptyReads <= i < |answers| :: answers[i] == Reply(0, More))
    && (emptyReads < |answers| ==> answers[|answers| - emptyReads - 1] != Reply(0, More))
  }

  /** One stream. The send number refused, if there is one, is lost to a cancelled context. */
  method ReadStream(source: seq<Byte>, refused: Option<nat>)
    returns (frames: seq<Frame>, cancelled: bool, ghost received: seq<Byte>, ghost answers: seq<Reply>)
    ensures WellFramed(frames)
    ensures |received| == Received(answers) && answers != [] && GoesOn(answers[..|answers| - 1])
    ensures !cancelled ==> Frames(source, received, End(answers), frames) && (refused.Some? ==> |frames| <= refused.value)
    ensures cancelled ==> Cut(source, received, End(answers), frames) && refused == Some(|frames|)
  {
    hide Whole, IsText, FullRune, DecodeRune, Frames, Sent, Cut, WellFramed, Kept, GoesOn, Received, Stuck, Reading, End;
    var buffer := new Byte[BUFFER_SIZE](i => 0);
    var carry: nat, emptyReads: nat, pos: nat := 0, 0, 0;
    frames, answers := [], [];
    Nothing(source);
    while true
      invariant carry <= 3 && carry <= pos <= |source| && Kept(source, pos, carry, frames) && Reading(answers, pos, emptyReads)
      invariant emptyReads < EMPTY_READS && (refused.Some? ==> |frames| <= refused.value)
      invariant buffer[..carry] == source[pos - carry..pos]
      decreases |source| - pos, EMPTY_READS - emptyReads
    {
      KeptMeans(source, pos, carry, frames);
      var n, status := Read(source, pos, buffer, carry);
      NextRead(answers, pos, emptyReads, n, status);
      answers := answers + [Reply(n, status)];
      if n == 0 && status.More? {
        emptyReads := emptyReads + 1;
        if emptyReads < EMPTY_READS {
          continue;
        }
        status := Broken(ReadFailed);
      } else {
        emptyReads := 0;
      }
      SlicesJoin(source, pos - carry, pos, pos + n);
      var outcome;
      frames, carry, outcome := Handle(buffer, carry + n, status, source, pos - carry, pos + n, frames, refused);
      pos := pos + n;
      if outcome != Going {
        return frames, outcome.Cancelled?, source[..pos], answers;
      }
    }
  }

  lemma SlicesJoin(s: seq<Byte>, i: nat, j: nat, k: nat)
    requires i <= j <= k <= |s|
    ensures s[i..j] + s[j..k] == s[i..k]
  {
  }

  /** One more answer. */
  lemma NextRead(answers: seq<Reply>, pos: nat, emptyReads: nat, n: nat, status: Status)
    requires Reading(answers, pos, emptyReads)
    ensures var more := answers + [Reply(n, status)];
      && Received(more) == pos + n && more[..|more| - 1] == answers && GoesOn(answers)
      && (if n == 0 && status.More?
          then if emptyReads + 1 < EMPTY_READS then Reading(more, pos, emptyReads + 1) else End(more) == Broken(ReadFailed)
          else End(more) == status && (status.More? ==> Reading(more, pos + n, 0)))
  {
    var more := answers + [Reply(n, status)];
    assert more[..|answers|] == answers && more[..|more|] == more;
    forall i | 0 <= i <= |answers| ensures more[..i] == answers[..i] {
    }
    if emptyReads < |answers| {
      assert more[|answers| - emptyReads - 1] == answers[|answers| - emptyReads - 1];
    }
  }

  /** What one read has brought: a text frame, if there is text; an error, if this is no text or the end; and the
      rest, which is carried into the next read. */
  method Handle(buffer: array<Byte>, total: nat, status: Status, ghost source: seq<Byte>, ghost start: nat, ghost pos: nat, frames: seq<Frame>,
                refused: Option<nat>)
    returns (frames': seq<Frame>, carry: nat, outcome: Outcome)
    requires total <= buffer.Length && start <= pos <= |source| && buffer[..total] == source[start..pos]
    requires Kept(source, start, 0, frames) && (status.Eof? ==> pos == |source|)
    requires refused.Some? ==> |frames| <= refused.value
    modifies buffer
    ensures WellFramed(frames') && (outcome.Going? ==> status.More?)
    ensures carry <= 3 && carry <= buffer.Length && carry <= pos
    ensures outcome.Going? ==> Kept(source, pos, carry, frames') && buffer[..carry] == source[pos - carry..pos]
    ensures outcome.Finished? ==> Frames(source, source[..pos], status, frames')
    ensures outcome.Cancelled? ==> Cut(source, source[..pos], status, frames') && refused == Some(|frames'|)
    ensures !outcome.Cancelled? && refused.Some? ==> |frames'| <= refused.value
  {
    hide Whole, IsText, FullRune, DecodeRune, Frames, Sent, Kept, WellFramed, Cut;
    KeptMeans(source, start, 0, frames);
    frames' := frames;
    var end, invalid := Scan(buffer, total);
    SliceOfSlice(source, start, end, pos);
    ghost var b := buffer[..total];
    assert b[..end] == buffer[..end] && b[end..] == buffer[end..total];
    Advance(source, start, pos, end);
    if end > 0 {
      if refused == Some(|frames'|) {
        CutText(source, start, pos, end, status, frames);
        return frames', 0, Cancelled;
      }
      OneFrame(source, start, end, frames);
      frames' := frames + [Text(buffer[..end])];
    }
    frames', carry, outcome := HandleRest(buffer, end, total, invalid, status, source, start + end, pos, frames', refused);
  }

  /** The rest of the buffer, once its text was sent. */
  method HandleRest(buffer: array<Byte>, end: nat, total: nat, invalid: bool, status: Status, ghost source: seq<Byte>, ghost sent: nat,
                    ghost pos: nat, frames: seq<Frame>, refused: Option<nat>)
    returns (frames': seq<Frame>, carry: nat, outcome: Outcome)
    requires end <= total <= buffer.Length && sent <= pos <= |source| && buffer[end..total] == source[sent..pos]
    requires Kept(source, sent, 0, frames) && (status.Eof? ==> pos == |source|) && Whole(source[..pos]) == sent && Whole(source[..sent]) == sent
    requires invalid <==> FullRune(buffer[end..total])
    requires invalid ==> end < total && DecodeRune(buffer[end..total]).None?
    requires refused.Some? ==> |frames| <= refused.value
    modifies buffer
    ensures WellFramed(frames') && (outcome.Going? ==> status.More?)
    ensures carry <= 3 && carry <= buffer.Length && carry <= pos
    ensures outcome.Going? ==> Kept(source, pos, carry, frames') && buffer[..carry] == source[pos - carry..pos]
    ensures outcome.Finished? ==> Frames(source, source[..pos], status, frames')
    ensures outcome.Cancelled? ==> Cut(source, source[..pos], status, frames') && refused == Some(|frames'|)
    ensures !outcome.Cancelled? && refused.Some? ==> |frames'| <= refused.value
  {
    hide Whole, IsText, FullRune, DecodeRune, Frames, Sent, Kept, WellFramed, Cut, Bad;
    KeptMeans(source, sent, 0, frames);
    BadRest(source, sent, pos, invalid);
    frames' := frames;
    if invalid || (status.Eof? && end != total) {
      Ending(source, sent, pos, invalid);
      if refused == Some(|frames'|) {
        CutError(source, sent, pos, status, frames');
        return frames', 0, Cancelled;
      }
      BadEnd(source, sent, pos, status, frames');
      return frames' + [Error(BadText)], 0, Finished;
    }
    CarryIsSmall(buffer[end..total]);
    carry := MoveToFront(buffer, end, total);
    if status.Broken? {
      if refused == Some(|frames'|) {
        CutError(source, sent, pos, status, frames');
        return frames', 0, Cancelled;
      }
      BrokenEnd(source, sent, pos, frames', status.fault);
      return frames' + [Error(status.fault)], 0, Finished;
    }
    if status.Eof? {
      GoodEnd(source, frames');
      assert source[..pos] == source;
      return frames', 0, Finished;
    }
    KeptRest(source, sent, pos, carry, frames');
    outcome := Going;
  }

  /** Whether what was received is bad, seen from the rest of the buffer. */
  lemma BadRest(source: seq<Byte>, k: nat, pos: nat, invalid: bool)
    requires k <= pos <= |source| && Whole(source[..pos]) == k && (invalid <==> FullRune(source[k..pos]))
    ensures Bad(source[..pos]) <==> invalid
  {
    assert source[..pos][k..] == source[k..pos];
  }

  lemma StillText(source: seq<Byte>, k: nat, pos: nat)
    requires k <= pos <= |source| && Whole(source[..pos]) == k && Whole(source[..k]) == k
    ensures source[..pos][..k] == source[..k] && source[..k] <= source[..Whole(source)]
  {
    hide Whole;
    assert source[..pos][..k] == source[..k];
    Sending(source, k, pos, 0);
  }

  /** A text frame is refused. */
  lemma CutText(source: seq<Byte>, start: nat, pos: nat, end: nat, status: Status, frames: seq<Frame>)
    requires 0 < end && start + end <= pos <= |source| && Kept(source, start, 0, frames)
    requires Whole(source[..start + end]) == start + end && Whole(source[..pos]) == start + end
    ensures Cut(source, source[..pos], status, frames)
  {
    hide Whole, Sent, Bad;
    StillText(source, start + end, pos);
  }

  /** An error is refused. */
  lemma CutError(source: seq<Byte>, k: nat, pos: nat, status: Status, frames: seq<Frame>)
    requires k <= pos <= |source| && Kept(source, k, 0, frames) && Whole(source[..pos]) == k
    requires Bad(source[..pos]) || status.Broken? || (status.Eof? && k != pos)
    ensures Cut(source, source[..pos], status, frames)
  {
    hide Whole, Sent, Bad;
    StillText(source, k, pos);
  }

  lemma KeptMeans(source: seq<Byte>, pos: nat, carry: nat, frames: seq<Frame>)
    requires Kept(source, pos, carry, frames)
    ensures carry <= pos <= |source| && Sent(frames) == source[..pos - carry] && Whole(source[..pos - carry]) == pos - carry && WellFramed(frames)
    ensures Kept(source, pos - carry, 0, frames)
  {
  }

  /** Bytes that are carried have been received but not sent. */
  lemma KeptRest(source: seq<Byte>, k: nat, pos: nat, carry: nat, frames: seq<Frame>)
    requires Kept(source, k, 0, frames) && carry <= pos <= |source| && pos - carry == k
    ensures Kept(source, pos, carry, frames) && WellFramed(frames)
  {
  }

  lemma Nothing(source: seq<Byte>)
    ensures Kept(source, 0, 0, []) && Reading([], 0, 0)
  {
  }

  /** The next text frame is sent. */
  lemma OneFrame(source: seq<Byte>, start: nat, end: nat, frames: seq<Frame>)
    requires 0 < end && start + end <= |source| && Kept(source, start, 0, frames) && Whole(source[..start + end]) == start + end
    requires Whole(source[start..start + end]) == end
    ensures Kept(source, start + end, 0, frames + [Text(source[start..start + end])])
  {
    var text := source[start..start + end];
    WholeIsText(text);
    assert text[..end] == text;
    hide Whole, IsText, WellFramed;
    SentMore(frames, Text(text));
    hide Sent;
    Rejoin(source, start, start + end);
    MoreText(frames, text);
  }

  lemma MoreText(frames: seq<Frame>, text: seq<Byte>)
    requires WellFramed(frames) && (forall i | 0 <= i < |frames| :: frames[i].Text?) && text != [] && IsText(text)
    ensures WellFramed(frames + [Text(text)]) && forall i | 0 <= i < |frames| + 1 :: (frames + [Text(text)])[i].Text?
  {
  }

  lemma BadEnd(source: seq<Byte>, k: nat, pos: nat, status: Status, frames: seq<Frame>)
    requires k <= pos <= |source| && Kept(source, k, 0, frames) && Whole(source) == k < |source| && Whole(source[..pos]) == k
    requires Bad(source[..pos]) || (status.Eof? && pos == |source|)
    ensures WellFramed(frames + [Error(BadText)]) && Frames(source, source[..pos], status, frames + [Error(BadText)])
  {
    hide Bad, Whole, IsText;
    SentMore(frames, Error(BadText));
    assert pos == |source| ==> source[..pos] == source;
  }

  lemma BrokenEnd(source: seq<Byte>, k: nat, pos: nat, frames: seq<Frame>, fault: Fault)
    requires k <= pos <= |source| && Kept(source, k, 0, frames) && Whole(source[..pos]) == k && !Bad(source[..pos])
    ensures WellFramed(frames + [Error(fault)]) && Frames(source, source[..pos], Broken(fault), frames + [Error(fault)])
  {
    hide Bad, Whole, IsText;
    SentMore(frames, Error(fault));
    assert source[..pos][..k] == source[..k];
  }

  lemma GoodEnd(source: seq<Byte>, frames: seq<Frame>)
    requires Kept(source, |source|, 0, frames)
    ensures Frames(source, source, Eof, frames)
  {
    assert source[..|source|] == source;
  }

  /** copy(buffer, buffer[end:total]) */
  method MoveToFront(buffer: array<Byte>, end: nat, total: nat) returns (carry: nat)
    requires end <= total <= buffer.Length
    modifies buffer
    ensures carry == total - end && buffer[..carry] == old(buffer[end..total])
  {
    carry := total - end;
    ghost var was := buffer[end..total];
    for i := 0 to carry
      invariant buffer[..i] == was[..i]
      invariant forall j | i <= j < carry :: buffer[end + j] == was[j]
    {
      buffer[i] := buffer[end + i];
    }
  }

  /** The text of what has been received so far. */
  lemma Advance(source: seq<Byte>, start: nat, pos: nat, end: nat)
    requires start + end <= pos <= |source| && Whole(source[..start]) == start && end == Whole(source[start..pos])
    requires Whole(source[start..pos][..end]) == end
    ensures Whole(source[..start + end]) == start + end && Whole(source[..pos]) == start + end
  {
    hide Whole;
    Rejoin(source, start, pos);
    WholeAppend(source[..start], source[start..pos]);
    SliceOfSlice(source, start, end, pos);
    Rejoin(source, start, start + end);
    WholeAppend(source[..start], source[start..start + end]);
  }

  /** What was sent before a frame is the beginning of the text of the source. */
  lemma Sending(source: seq<Byte>, start: nat, pos: nat, end: nat)
    requires start + end <= pos <= |source| && Whole(source[..start + end]) == start + end
    ensures source[..start] <= source[..Whole(source)]
  {
    WholeAppend(source[..start + end], source[start + end..]);
    assert source[..start + end] + source[start + end..] == source;
  }

  /** The source ends, or is no text from here on. */
  lemma Ending(source: seq<Byte>, k: nat, pos: nat, invalid: bool)
    requires k <= pos <= |source| && Whole(source[..k]) == k && Whole(source[..pos]) == k
    requires if invalid then k < pos && FullRune(source[k..pos]) && DecodeRune(source[k..pos]).None? else pos == |source| && k < pos
    ensures Whole(source) == k < |source|
  {
    if invalid {
      assert source[k..pos] + source[pos..] == source[k..];
      WholeStops(source[k..pos], source[pos..]);
      assert source[..k] + source[k..] == source;
      WholeAppend(source[..k], source[k..]);
    } else {
      assert source[..pos] == source;
    }
  }
}
