/** Shared result types and the fault model of one call across a process boundary. */
module Prelude {

  datatype Option<+T> = None | Some(value: T)

  /** The error kinds that change control flow somewhere in the repository. */
  datatype Error =
    | NotFound        // no such sandbox, container, image or entry
    | AlreadyRunning
    | AlreadyStopped
    | Pending         // another durable intent belongs to the sandbox
    | Mismatch        // stored identity, runtime, token or label differs
    | Invalid         // malformed request or record
    | Closing         // the backend is shutting down
    | Deferred        // a runtime call failed; durable work is retried later
    | Store           // the database call failed

  datatype Result<+T> = Ok(value: T) | Err(error: Error)

  /** What happens to one call: it takes effect and reports, it has no effect, or it
      takes effect and its response is lost. */
  datatype Fault = Clean | Fail | Lost

  type Byte = b: int | 0 <= b < 256

  function Max(a: int, b: int): int {
    if a >= b then a else b
  }

  /** What a sequence of writes has written. */
  function Flatten(writes: seq<seq<Byte>>): seq<Byte> {
    if writes == [] then [] else Flatten(writes[..|writes| - 1]) + writes[|writes| - 1]
  }

  /******* Slices *******/

  lemma DropAppend<T>(s: seq<T>, t: seq<T>, n: nat)
    requires n <= |s|
    ensures (s + t)[n..] == s[n..] + t && (s + t)[..n] == s[..n]
  {
  }

  lemma Rejoin<T>(s: seq<T>, i: nat, j: nat)
    requires i <= j <= |s|
    ensures s[..i] + s[i..j] == s[..j] && s[i..j] + s[j..] == s[i..] && s[..j] + s[j..] == s
  {
  }

  lemma SliceOfDrop<T>(s: seq<T>, i: nat, n: nat)
    requires i + n <= |s|
    ensures s[i..][..n] == s[i..i + n] && s[i..][n..] == s[i + n..]
  {
  }

  lemma SliceOfTake<T>(s: seq<T>, i: nat, j: nat)
    requires i <= j <= |s|
    ensures s[..j][i..] == s[i..][..j - i] == s[i..j] && s[..j][..i] == s[..i]
  {
  }

  lemma SliceOfSlice<T>(s: seq<T>, i: nat, n: nat, j: nat)
    requires i + n <= j <= |s|
    ensures s[i..j][..n] == s[i..i + n] && s[i..j][n..] == s[i + n..j]
  {
  }
}
